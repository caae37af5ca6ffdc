/** The per-upload locks: who is handed the same mutex. */
module MutexMap {

  /** Locks by key; made counts the mutexes created so far, which number them. */
  datatype Locks = Locks(values: map<string, nat>, made: nat)

  datatype Op = Get(k: string) | Remove(k: string)

  function Step(l: Locks, op: Op): Locks {
    match op
    case Get(k) => if k in l.values then l else Locks(l.values[k := l.made], l.made + 1)
    case Remove(k) => Locks(l.values - {k}, l.made)
  }

  function Run(l: Locks, ops: seq<Op>): Locks
    decreases |ops|
  {
    if |ops| == 0 then l else Run(Step(l, ops[0]), ops[1..])
  }

  /** The mutex that Get returns. */
  function Handed(l: Locks, k: string): nat {
    if k in l.values then l.values[k] else l.made
  }

  ghost predicate Numbered(l: Locks) {
    forall k :: k in l.values ==> l.values[k] < l.made
  }

  /** While m is out, k is handed m until it is removed, and never again afterwards. */
  lemma {:induction false} HandedAfter(l: Locks, k: string, m: nat, ops: seq<Op>)
    requires Numbered(l) && m < l.made && (k in l.values ==> l.values[k] == m)
    ensures Handed(Run(l, ops), k) == m <==> k in l.values && Remove(k) !in ops
    decreases |ops|
  {
    if |ops| > 0 {
      var n := Step(l, ops[0]);
      assert Numbered(n);
      assert ops == [ops[0]] + ops[1..];
      if k !in l.values && ops[0] == Get(k) {
        NeverHandedAgain(n, k, m, ops[1..]);
      } else {
        HandedAfter(n, k, m, ops[1..]);
      }
    }
  }

  lemma {:induction false} NeverHandedAgain(l: Locks, k: string, m: nat, ops: seq<Op>)
    requires Numbered(l) && m < l.made && (k in l.values ==> l.values[k] != m)
    ensures Handed(Run(l, ops), k) != m
    decreases |ops|
  {
    if |ops| > 0 {
      NeverHandedAgain(Step(l, ops[0]), k, m, ops[1..]);
    }
  }

  /** Two requests for an upload exclude each other exactly when its lock was not removed
      between their calls. */
  lemma SameLockIff(l: Locks, k: string, between: seq<Op>)
    requires Numbered(l)
    ensures Handed(Run(Step(l, Get(k)), between), k) == Handed(l, k) <==> Remove(k) !in between
  {
    HandedAfter(Step(l, Get(k)), k, Handed(l, k), between);
  }

  class Mutex {
    constructor () {
    }
  }

  /** The lock map of the handlers; order lists the mutexes as they were made. */
  class MutexMap {
    var values: map<string, Mutex>
    ghost var order: seq<Mutex>
    ghost var numbers: map<string, nat>

    ghost predicate Valid()
      reads this
    {
      && numbers.Keys == values.Keys
      && (forall k :: k in values ==> numbers[k] < |order| && order[numbers[k]] == values[k])
    }

    ghost function State(): Locks
      reads this
    {
      Locks(numbers, |order|)
    }

    constructor ()
      ensures Valid() && State() == Locks(map[], 0)
    {
      values, order, numbers := map[], [], map[];
    }

    method GetMutex(k: string) returns (mutex: Mutex)
      requires Valid()
      modifies this
      ensures Valid() && State() == Step(old(State()), Get(k))
      ensures old(order) <= order && Handed(old(State()), k) < |order| && mutex == order[Handed(old(State()), k)]
      ensures |order| > |old(order)| ==> fresh(mutex)
    {
      if k in values {
        mutex := values[k];
      } else {
        mutex := new Mutex();
        values := values[k := mutex];
        numbers := numbers[k := |order|];
        order := order + [mutex];
      }
    }

    method RemoveMutex(k: string)
      requires Valid()
      modifies this
      ensures Valid() && State() == Step(old(State()), Remove(k)) && order == old(order)
    {
      values := values - {k};
      numbers := numbers - {k};
    }
  }
}
