/**
 Concurrent Enqueue calls on the Redis queue: LLEN and RPUSH are separate commands, so a caller
 that saw room may push after others have filled it.
 */
module CapacityRace {
  import opened Fifo

  /** `passed` holds the items of callers that are between their LLEN and their RPUSH. */
  datatype State = State(list: seq<Item>, passed: map<nat, Item>, refused: nat)

  datatype Label =
    | Check(caller: nat, item: Item)
    | Push(caller: nat)
    | Pop

  const EMPTY := State([], map[], 0)

  /** `callers` bounds how many Enqueue calls run at once: those numbered below it. */
  function Next(maxSize: nat, callers: nat, s: State, l: Label): State {
    match l
    case Check(caller, item) =>
      if callers <= caller || caller in s.passed then s
      else if maxSize <= |s.list| then s.(refused := s.refused + 1)
      else s.(passed := s.passed[caller := item])
    case Push(caller) =>
      if caller !in s.passed then s
      else s.(list := s.list + [s.passed[caller]], passed := s.passed - {caller})
    case Pop =>
      if s.list == [] then s else s.(list := s.list[1..])
  }

  function Run(maxSize: nat, callers: nat, s: State, ls: seq<Label>): State
    decreases |ls|
  {
    if ls == [] then s else Run(maxSize, callers, Next(maxSize, callers, s, ls[0]), ls[1..])
  }

  function Numbers(n: nat): (r: set<nat>)
    ensures |r| == n
    ensures forall k: nat :: k in r <==> k < n
  {
    if n == 0 then {} else Numbers(n - 1) + {n - 1}
  }

  /** Length plus callers past their check stays under the bound, and only `callers` can be past it. */
  predicate Inv(maxSize: nat, callers: nat, s: State) {
    && s.passed.Keys <= Numbers(callers)
    && |s.list| + |s.passed| < maxSize + callers
  }

  lemma SubsetSmaller(a: set<nat>, b: set<nat>)
    requires a <= b
    ensures |a| <= |b|
  {
    assert |b| == |a| + |b - a| by {
      assert b == a + (b - a);
    }
  }

  lemma PassKeeps(maxSize: nat, callers: nat, s: State, caller: nat, item: Item)
    requires Inv(maxSize, callers, s) && caller < callers && caller !in s.passed && |s.list| < maxSize
    ensures Inv(maxSize, callers, s.(passed := s.passed[caller := item]))
  {
    var p := s.passed[caller := item];
    assert p.Keys == s.passed.Keys + {caller};
    SubsetSmaller(p.Keys, Numbers(callers));
    assert |p| == |p.Keys|;
  }

  lemma PushKeeps(maxSize: nat, callers: nat, s: State, caller: nat)
    requires Inv(maxSize, callers, s) && caller in s.passed
    ensures Inv(maxSize, callers, s.(list := s.list + [s.passed[caller]], passed := s.passed - {caller}))
  {
    var p := s.passed - {caller};
    assert p.Keys == s.passed.Keys - {caller};
    assert |p| == |p.Keys| && |s.passed| == |s.passed.Keys|;
  }

  lemma NextKeeps(maxSize: nat, callers: nat, s: State, l: Label)
    requires 0 < callers && Inv(maxSize, callers, s)
    ensures Inv(maxSize, callers, Next(maxSize, callers, s, l))
  {
    match l
    case Check(caller, item) =>
      if caller < callers && caller !in s.passed && |s.list| < maxSize {
        PassKeeps(maxSize, callers, s, caller, item);
      }
    case Push(caller) =>
      if caller in s.passed {
        PushKeeps(maxSize, callers, s, caller);
      }
    case Pop =>
  }

  lemma {:induction false} RunKeeps(maxSize: nat, callers: nat, s: State, ls: seq<Label>)
    requires 0 < callers && Inv(maxSize, callers, s)
    ensures Inv(maxSize, callers, Run(maxSize, callers, s, ls))
    decreases |ls|
  {
    hide Inv, Next;
    if ls != [] {
      NextKeeps(maxSize, callers, s, ls[0]);
      RunKeeps(maxSize, callers, Next(maxSize, callers, s, ls[0]), ls[1..]);
    }
  }

  /** With at most K Enqueue calls at once the list never grows past maxSize + K - 1. */
  lemma RaceBound(maxSize: nat, callers: nat, ls: seq<Label>)
    requires 0 < callers && 0 < maxSize
    ensures |Run(maxSize, callers, EMPTY, ls).list| <= maxSize + callers - 1
  {
    RunKeeps(maxSize, callers, EMPTY, ls);
  }

  // ---------------------------------------------------------------- the bound is reached

  function Checks(n: nat, x: Item): seq<Label> {
    if n == 0 then [] else Checks(n - 1, x) + [Check(n - 1, x)]
  }

  function Pushes(n: nat): seq<Label> {
    if n == 0 then [] else [Push(n - 1)] + Pushes(n - 1)
  }

  function Fill(n: nat, x: Item): seq<Label> {
    if n == 0 then [] else [Check(0, x), Push(0)] + Fill(n - 1, x)
  }

  function AllPassed(n: nat, x: Item): map<nat, Item> {
    map k | k in Numbers(n) :: x
  }

  lemma {:induction false} RunConcat(maxSize: nat, callers: nat, s: State, ls: seq<Label>, ms: seq<Label>)
    ensures Run(maxSize, callers, s, ls + ms) == Run(maxSize, callers, Run(maxSize, callers, s, ls), ms)
    decreases |ls|
  {
    hide Next;
    if ls == [] {
      assert ls + ms == ms;
    } else {
      assert (ls + ms)[0] == ls[0] && (ls + ms)[1..] == ls[1..] + ms;
      RunConcat(maxSize, callers, Next(maxSize, callers, s, ls[0]), ls[1..], ms);
    }
  }

  lemma {:induction false} FillRun(maxSize: nat, callers: nat, s: State, n: nat, x: Item)
    requires 0 < callers && s.passed == map[] && |s.list| + n <= maxSize
    ensures var s' := Run(maxSize, callers, s, Fill(n, x)); |s'.list| == |s.list| + n && s'.passed == map[]
    decreases n
  {
    if 0 < n {
      var ls := Fill(n, x);
      var s1 := Next(maxSize, callers, s, ls[0]);
      var s2 := Next(maxSize, callers, s1, ls[1]);
      assert s2.passed == map[];
      assert ls[1..][1..] == Fill(n - 1, x);
      assert ls[1..][0] == ls[1];
      assert Run(maxSize, callers, s, ls) == Run(maxSize, callers, s1, ls[1..]) == Run(maxSize, callers, s2, Fill(n - 1, x));
      FillRun(maxSize, callers, s2, n - 1, x);
    }
  }

  lemma {:induction false} ChecksRun(maxSize: nat, callers: nat, s: State, n: nat, x: Item)
    requires n <= callers && s.passed == map[] && |s.list| < maxSize
    ensures Run(maxSize, callers, s, Checks(n, x)) == s.(passed := AllPassed(n, x))
    decreases n
  {
    if n == 0 {
      assert AllPassed(0, x) == map[];
    } else {
      ChecksRun(maxSize, callers, s, n - 1, x);
      var s1 := s.(passed := AllPassed(n - 1, x));
      RunConcat(maxSize, callers, s, Checks(n - 1, x), [Check(n - 1, x)]);
      assert [Check(n - 1, x)][1..] == [];
      assert Run(maxSize, callers, s1, [Check(n - 1, x)]) == Next(maxSize, callers, s1, Check(n - 1, x));
      assert AllPassed(n - 1, x)[n - 1 := x] == AllPassed(n, x);
    }
  }

  lemma {:induction false} PushesRun(maxSize: nat, callers: nat, s: State, n: nat, x: Item)
    requires s.passed == AllPassed(n, x)
    ensures |Run(maxSize, callers, s, Pushes(n)).list| == |s.list| + n
    decreases n
  {
    if 0 < n {
      var s1 := Next(maxSize, callers, s, Push(n - 1));
      assert s1.passed == AllPassed(n - 1, x);
      assert Pushes(n)[1..] == Pushes(n - 1);
      PushesRun(maxSize, callers, s1, n - 1, x);
    }
  }

  /** Some interleaving does reach it: all callers check while one place is left, then all push. */
  lemma RaceBoundReached(maxSize: nat, callers: nat, x: Item) returns (ls: seq<Label>)
    requires 0 < callers && 0 < maxSize
    ensures |Run(maxSize, callers, EMPTY, ls).list| == maxSize + callers - 1
  {
    var fill := Fill(maxSize - 1, x);
    ls := fill + (Checks(callers, x) + Pushes(callers));
    FillRun(maxSize, callers, EMPTY, maxSize - 1, x);
    var s1 := Run(maxSize, callers, EMPTY, fill);
    ChecksRun(maxSize, callers, s1, callers, x);
    PushesRun(maxSize, callers, s1.(passed := AllPassed(callers, x)), callers, x);
    RunConcat(maxSize, callers, EMPTY, fill, Checks(callers, x) + Pushes(callers));
    RunConcat(maxSize, callers, s1, Checks(callers, x), Pushes(callers));
  }
}
