/**
 The two maps both limiters keep for pending reservations: from waiter key to channel, and from
 reservation ID to waiter key. `C` stands for the channel type.
 */
module Waiters {

  datatype Maps<C> = Maps(byKey: map<string, C>, byID: map<string, string>)

  function WaiterKey(key: string, id: string): string {
    key + ":" + id
  }

  /** What is assumed of generated reservation IDs. */
  predicate IsID(id: string) {
    ':' !in id
  }

  predicate EndsWithID(waiterKey: string, id: string) {
    |id| < |waiterKey| && waiterKey[|waiterKey| - |id| - 1..] == ":" + id
  }

  lemma WaiterKeyEndsWithID(key: string, id: string)
    ensures EndsWithID(WaiterKey(key, id), id)
  {}

  /** A waiter key ends with one ID only, because IDs contain no colon. */
  lemma EndsWithOneID(waiterKey: string, id: string, id': string)
    requires IsID(id) && IsID(id')
    requires EndsWithID(waiterKey, id) && EndsWithID(waiterKey, id')
    ensures id == id'
  {
    var n := |waiterKey|;
    if |id| < |id'| {
      ColonInside(waiterKey, id, id');
    } else if |id'| < |id| {
      ColonInside(waiterKey, id', id);
    } else {
      assert id == waiterKey[n - |id| - 1..][1..];
      assert id' == waiterKey[n - |id| - 1..][1..];
    }
  }

  lemma ColonInside(waiterKey: string, short: string, long: string)
    requires EndsWithID(waiterKey, short) && EndsWithID(waiterKey, long)
    requires |short| < |long|
    ensures ':' in long
  {
    var n := |waiterKey|;
    var at := n - |short| - 1;
    assert waiterKey[at] == waiterKey[at..][0] == ':';
    assert waiterKey[n - |long| - 1..][at - (n - |long| - 1)] == waiterKey[at];
    assert (":" + long)[|long| - |short|] == long[|long| - |short| - 1];
  }

  /** Key and ID can be read back from the combined key: no two reservations share a waiter. */
  lemma WaiterKeyInjective(key: string, id: string, key': string, id': string)
    requires IsID(id) && IsID(id') && WaiterKey(key, id) == WaiterKey(key', id')
    ensures key == key' && id == id'
  {
    WaiterKeyEndsWithID(key, id);
    WaiterKeyEndsWithID(key', id');
    EndsWithOneID(WaiterKey(key, id), id, id');
    assert key == WaiterKey(key, id)[..|WaiterKey(key, id)| - |id| - 1];
    assert key' == WaiterKey(key', id')[..|WaiterKey(key', id')| - |id'| - 1];
  }

  /** The domains correspond: each ID has its own waiter and each waiter belongs to an ID. */
  ghost predicate Corresponds<C>(m: Maps<C>) {
    && (forall id :: id in m.byID ==> IsID(id) && m.byID[id] in m.byKey && EndsWithID(m.byID[id], id))
    && (forall k :: k in m.byKey ==> exists id :: id in m.byID && m.byID[id] == k)
  }

  /** Different IDs have different waiters. */
  lemma OwnWaiters<C>(m: Maps<C>, i: string, j: string)
    requires Corresponds(m) && i in m.byID && j in m.byID && m.byID[i] == m.byID[j]
    ensures i == j
  {
    EndsWithOneID(m.byID[i], i, j);
  }

  function Add<C>(m: Maps<C>, key: string, id: string, ch: C): Maps<C> {
    Maps(m.byKey[WaiterKey(key, id) := ch], m.byID[id := WaiterKey(key, id)])
  }

  function Drop<C>(m: Maps<C>, waiterKey: string, id: string): Maps<C> {
    Maps(m.byKey - {waiterKey}, m.byID - {id})
  }

  lemma AddKeepsCorrespondence<C>(m: Maps<C>, key: string, id: string, ch: C)
    requires Corresponds(m) && IsID(id) && id !in m.byID
    ensures Corresponds(Add(m, key, id, ch))
    ensures WaiterKey(key, id) !in m.byKey
  {
    var k := WaiterKey(key, id);
    WaiterKeyEndsWithID(key, id);
    if k in m.byKey {
      var id' :| id' in m.byID && m.byID[id'] == k;
      EndsWithOneID(k, id, id');
    }
    var m' := Add(m, key, id, ch);
    forall k' | k' in m'.byKey ensures exists i :: i in m'.byID && m'.byID[i] == k' {
      if k' == k {
        assert m'.byID[id] == k;
      } else {
        var i :| i in m.byID && m.byID[i] == k';
        assert m'.byID[i] == k';
      }
    }
  }

  lemma DropKeepsCorrespondence<C>(m: Maps<C>, id: string)
    requires Corresponds(m) && id in m.byID
    ensures Corresponds(Drop(m, m.byID[id], id))
  {
    var k := m.byID[id];
    var m' := Drop(m, k, id);
    forall i | i in m'.byID ensures m'.byID[i] in m'.byKey {
      if m.byID[i] == k {
        EndsWithOneID(k, id, i);
      }
    }
    forall k' | k' in m'.byKey ensures exists i :: i in m'.byID && m'.byID[i] == k' {
      var i :| i in m.byID && m.byID[i] == k';
      assert i in m'.byID;
    }
  }
}
