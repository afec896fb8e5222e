/** The waiter maps of a limiter as the code keeps them, and the reservations that refer to them. */
module WaitQueue {
  import opened Waiters

  /** A channel that is only ever closed; closing it twice would panic. */
  class Channel {
    var closed: bool

    constructor ()
      ensures !closed
    {
      closed := false;
    }

    method Close()
      requires !closed
      modifies this
      ensures closed
    {
      closed := true;
    }
  }

  /** The fields guarded by waitersMu. Each method is one section under that mutex. */
  class WaitMaps {
    var waiters: map<string, Channel>
    var waitersByID: map<string, string>

    ghost function Contents(): Maps<Channel>
      reads this
    {
      Maps(waiters, waitersByID)
    }

    /** Domains correspond, waiters do not share channels, and every channel in the map is open. */
    ghost predicate Valid()
      reads this, waiters.Values
    {
      && Corresponds(Contents())
      && (forall k :: k in waiters ==> !waiters[k].closed)
      && (forall i, k :: i in waiters && k in waiters && waiters[i] == waiters[k] ==> i == k)
    }

    constructor ()
      ensures Valid() && Contents() == Maps(map[], map[])
    {
      waiters, waitersByID := map[], map[];
    }

    method Enlist(key: string, id: string) returns (ch: Channel)
      requires Valid() && IsID(id) && id !in waitersByID
      modifies this
      ensures Valid() && fresh(ch) && !ch.closed
      ensures Contents() == Add(old(Contents()), key, id, ch)
      ensures var k := key + ":" + id; waiters == old(waiters)[k := ch] && waitersByID == old(waitersByID)[id := k]
    {
      ch := new Channel();
      AddKeepsCorrespondence(Contents(), key, id, ch);
      waiters := waiters[WaiterKey(key, id) := ch];
      waitersByID := waitersByID[id := WaiterKey(key, id)];
    }

    /** The goroutine's notification: a waiter that is still listed is closed and taken off. */
    method Notify(key: string, id: string)
      requires Valid() && IsID(id)
      modifies this, waiters.Values
      ensures Valid()
      ensures var k := WaiterKey(key, id);
        && Contents() == (if k in old(waiters) then Drop(old(Contents()), k, id) else old(Contents()))
        && (k in old(waiters) ==> old(waiters)[k].closed)
        && (forall i :: i in old(waiters) && i != k ==> !old(waiters)[i].closed)
      ensures var k := key + ":" + id;
        && (k in old(waiters) ==> old(waiters)[k].closed && waiters == old(waiters) - {k} && waitersByID == old(waitersByID) - {id})
        && (k !in old(waiters) ==> waiters == old(waiters) && waitersByID == old(waitersByID))
    {
      var k := WaiterKey(key, id);
      if k in waiters {
        OwnID(Contents(), key, id);
        DropKeepsCorrespondence(Contents(), id);
        waiters[k].Close();
        waiters := waiters - {k};
        waitersByID := waitersByID - {id};
      }
    }

    /** The part of CancelAt under the mutex: the waiter is taken off without being notified. */
    method Withdraw(id: string) returns (found: bool)
      requires Valid()
      modifies this
      ensures Valid()
      ensures found <==> id in old(waitersByID)
      ensures Contents() == if found then Drop(old(Contents()), old(waitersByID)[id], id) else old(Contents())
      ensures waitersByID == old(waitersByID) - {id}
      ensures waiters == if found then old(waiters) - {old(waitersByID)[id]} else old(waiters)
    {
      found := id in waitersByID;
      if found {
        DropKeepsCorrespondence(Contents(), id);
        waiters := waiters - {waitersByID[id]};
        waitersByID := waitersByID - {id};
      }
    }
  }

  lemma OwnID(m: Maps<Channel>, key: string, id: string)
    requires Corresponds(m) && IsID(id) && WaiterKey(key, id) in m.byKey
    ensures id in m.byID && m.byID[id] == WaiterKey(key, id)
  {
    var k := WaiterKey(key, id);
    var i :| i in m.byID && m.byID[i] == k;
    WaiterKeyEndsWithID(key, id);
    EndsWithOneID(k, id, i);
  }

  /** What ReserveN hands to its caller. */
  class Reservation {
    const maps: WaitMaps
    const tokens: int
    const timeToProcess: real
    const reservationID: string
    var ok: bool

    constructor (maps: WaitMaps, tokens: int, timeToProcess: real, reservationID: string)
      ensures this.maps == maps && this.tokens == tokens
      ensures this.timeToProcess == timeToProcess && this.reservationID == reservationID && ok
    {
      this.maps, this.tokens := maps, tokens;
      this.timeToProcess, this.reservationID := timeToProcess, reservationID;
      ok := true;
    }

    function DelayFrom(now: real): (delay: real)
      reads this
      ensures 0.0 <= delay
      ensures ok && now <= timeToProcess ==> now + delay == timeToProcess
      ensures !ok || timeToProcess < now ==> delay == 0.0
    {
      if !ok || timeToProcess - now < 0.0 then 0.0 else timeToProcess - now
    }

    /**
     Takes the waiter off the maps and marks the reservation canceled, provided it is not due yet and
     still listed; in every other case nothing changes, and the mark stays.
     */
    method CancelAt(now: real)
      requires maps.Valid()
      modifies this, maps
      ensures maps.Valid()
      ensures var canceled := old(ok) && now < timeToProcess && reservationID in old(maps.waitersByID);
        && ok == (old(ok) && !canceled)
        && maps.Contents() == if canceled
             then Drop(old(maps.Contents()), old(maps.waitersByID)[reservationID], reservationID)
             else old(maps.Contents())
    {
      if !ok {
        return;
      }
      if now < timeToProcess {
        var found := maps.Withdraw(reservationID);
        if found {
          ok := false;
        }
      }
    }
  }
}
