/**
 * The seat locks in Redis: one key per seat holding the order that took it, with
 * a time to live. The table keeps live keys only; moving the clock drops the
 * lapsed ones.
 */
module SeatLocks {
  import opened Common
  import opened Inventory

  datatype Lock = Lock(order: OrderId, until: int)

  type Locks = map<SeatId, Lock>

  predicate Distinct(keys: seq<SeatId>) {
    forall i, j :: 0 <= i < j < |keys| ==> keys[i] != keys[j]
  }

  predicate NoneTaken(locks: Locks, keys: seq<SeatId>) {
    forall k :: k in keys ==> k !in locks
  }

  /** All of `keys`, or none: a taken key, even one of the same order or one asked for twice, refuses the batch. */
  function Acquired(locks: Locks, keys: seq<SeatId>, lock: Lock): Option<Locks> {
    if Distinct(keys) && NoneTaken(locks, keys)
    then Some(map k | k in locks.Keys + (set s | s in keys) :: if k in locks then locks[k] else lock)
    else None
  }

  function KeySet(keys: seq<SeatId>): set<SeatId> {
    set k | k in keys
  }

  lemma AcquireNothing(locks: Locks, lock: Lock)
    ensures Acquired(locks, [], lock) == Some(locks)
  {
    assert Acquired(locks, [], lock).value == locks;
  }

  lemma AcquireOneMore(locks: Locks, keys: seq<SeatId>, key: SeatId, lock: Lock)
    requires Acquired(locks, keys, lock).Some?
    ensures var mid := Acquired(locks, keys, lock).value;
            Acquired(locks, keys + [key], lock) == if key in mid then None else Some(mid[key := lock])
  {
    var mid := Acquired(locks, keys, lock).value;
    var more := keys + [key];
    assert more[|keys|] == key;
    assert forall k :: k in more <==> k in keys || k == key;
    if key in mid {
      if key in keys {
        var j :| 0 <= j < |keys| && keys[j] == key;
        assert more[j] == more[|keys|];
      }
    } else {
      assert Distinct(more) && NoneTaken(locks, more);
      assert Acquired(locks, more, lock).value == mid[key := lock];
    }
  }

  lemma AcquiredAsPromised(locks: Locks, keys: seq<SeatId>, lock: Lock)
    ensures Acquired(locks, keys, lock).Some? <==> Distinct(keys) && forall k :: k in keys ==> k !in locks
    ensures Acquired(locks, keys, lock).Some? ==>
              var after := Acquired(locks, keys, lock).value;
              && (forall k :: k in after <==> k in locks || k in keys)
              && forall k :: k in after ==> after[k] == if k in keys then lock else locks[k]
  {
  }

  /** A batch whose prefix is refused is refused. */
  lemma RefusedForGood(locks: Locks, keys: seq<SeatId>, n: nat, lock: Lock)
    requires n <= |keys| && Acquired(locks, keys[..n], lock).None?
    ensures Acquired(locks, keys, lock).None?
  {
    if NoneTaken(locks, keys) {
      assert !Distinct(keys[..n]);
    }
  }

  /** Deleting what a batch acquired restores the table. */
  lemma DeletingUndoes(locks: Locks, keys: seq<SeatId>, lock: Lock)
    requires Acquired(locks, keys, lock).Some?
    ensures Acquired(locks, keys, lock).value - KeySet(keys) == locks
  {
  }

  predicate Owns(locks: Locks, key: SeatId, order: OrderId) {
    key in locks && locks[key].order == order
  }

  function Unexpired(locks: Locks, now: int): Locks {
    map k | k in locks && now < locks[k].until :: locks[k]
  }

  class SeatLockService {
    var locks: Locks
    var now: int

    constructor (now: int)
      ensures locks == map[] && this.now == now
    {
      locks, this.now := map[], now;
    }

    /** SET NX key after key; the first failure deletes what this call had set. */
    method TryAcquireAll(keys: seq<SeatId>, order: OrderId, ttl: nat) returns (ok: bool)
      modifies this`locks
      ensures var after := Acquired(old(locks), keys, Lock(order, now + ttl));
              && ok == after.Some?
              && locks == if ok then after.value else old(locks)
      ensures ok <==> (forall i, j :: 0 <= i < j < |keys| ==> keys[i] != keys[j]) && forall k :: k in keys ==> k !in old(locks)
      ensures ok ==>
                && (forall k :: k in locks <==> k in old(locks) || k in keys)
                && forall k :: k in locks ==> locks[k] == if k in keys then Lock(order, now + ttl) else old(locks)[k]
      ensures !ok ==> locks == old(locks)
    {
      AcquiredAsPromised(locks, keys, Lock(order, now + ttl));
      hide Acquired;
      var acquired: seq<SeatId> := [];
      AcquireNothing(locks, Lock(order, now + ttl));
      for n := 0 to |keys|
        invariant acquired == keys[..n]
        invariant Acquired(old(locks), acquired, Lock(order, now + ttl)) == Some(locks)
      {
        assert keys[..n + 1] == acquired + [keys[n]];
        AcquireOneMore(old(locks), acquired, keys[n], Lock(order, now + ttl));
        if keys[n] in locks {
          RefusedForGood(old(locks), keys, n + 1, Lock(order, now + ttl));
          DeletingUndoes(old(locks), acquired, Lock(order, now + ttl));
          DeleteAll(acquired);
          return false;
        }
        locks := locks[keys[n] := Lock(order, now + ttl)];
        acquired := acquired + [keys[n]];
      }
      assert keys[..|keys|] == keys;
      return true;
    }

    method DeleteAll(acquired: seq<SeatId>)
      modifies this`locks
      ensures locks == old(locks) - KeySet(acquired)
    {
      for m := 0 to |acquired|
        invariant locks == old(locks) - KeySet(acquired[..m])
      {
        assert acquired[..m + 1] == acquired[..m] + [acquired[m]];
        locks := locks - {acquired[m]};
      }
      assert acquired[..|acquired|] == acquired;
    }

    method ReleaseIfOwner(key: SeatId, order: OrderId) returns (ok: bool)
      modifies this`locks
      ensures ok <==> key in old(locks) && old(locks)[key].order == order
      ensures locks == if ok then old(locks) - {key} else old(locks)
    {
      if key in locks && locks[key].order == order {
        locks := locks - {key};
        return true;
      }
      return false;
    }

    method Extend(key: SeatId, order: OrderId, ttl: nat) returns (ok: bool)
      modifies this`locks
      ensures ok <==> key in old(locks) && old(locks)[key].order == order
      ensures locks == if ok then old(locks)[key := Lock(order, now + ttl)] else old(locks)
    {
      if key !in locks || locks[key].order != order {
        return false;
      }
      locks := locks[key := locks[key].(until := now + ttl)];
      return true;
    }

    /** Time passes and keys lapse. */
    method Advance(to: int)
      requires now <= to
      modifies this
      ensures now == to && locks == Unexpired(old(locks), to)
      ensures forall k :: k in locks <==> k in old(locks) && to < old(locks)[k].until
      ensures forall k :: k in locks ==> locks[k] == old(locks)[k]
    {
      now := to;
      locks := map k | k in locks && to < locks[k].until :: locks[k];
    }
  }
}
