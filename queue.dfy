/** `OperationQueue` (internal/fileops/queue.go): the history of operations, the index of those
    holding a slot, and the bounded pool of slots. The channel semaphore becomes a counter of
    slots in use; `runOperation` becomes `Admit`, which takes a slot when one is free (the
    goroutine would otherwise wait), and `Release`, which gives it back once the operation has
    ended. The mutex is not modelled. */
module Queue {

  import opened Wrappers
  import opened Operations

  /** Whether a status counts as active for `CancelAll` and `Clear`. */
  predicate IsActive(s: int) {
    s == StatusPending || s == StatusRunning
  }

  /** The operations of `ops` whose status is in `statuses`, in their order. */
  function Filter(ops: seq<Operation>, statuses: set<int>): seq<Operation>
    reads ops
  {
    if ops == [] then []
    else if ops[0].Status in statuses then [ops[0]] + Filter(ops[1..], statuses)
    else Filter(ops[1..], statuses)
  }

  /** The filter keeps exactly the operations whose status is among `statuses`. */
  lemma {:induction false} FilterKeeps(ops: seq<Operation>, statuses: set<int>)
    ensures var r := Filter(ops, statuses);
      && |r| <= |ops|
      && (forall i :: 0 <= i < |r| ==> r[i] in ops && r[i].Status in statuses)
      && (forall i :: 0 <= i < |ops| && ops[i].Status in statuses ==> ops[i] in r)
  {
    if ops != [] {
      FilterKeeps(ops[1..], statuses);
      var r := Filter(ops, statuses);
      var rest := Filter(ops[1..], statuses);
      forall i | 0 <= i < |ops| && ops[i].Status in statuses
        ensures ops[i] in r
      {
        if i > 0 {
          assert ops[i] == ops[1..][i - 1];
        }
      }
      forall i | 0 <= i < |r|
        ensures r[i] in ops && r[i].Status in statuses
      {
        if ops[0].Status in statuses && i > 0 {
          assert r[i] == rest[i - 1];
        } else if ops[0].Status !in statuses {
          assert r[i] == rest[i];
        }
      }
    }
  }

  /** Filtering is done element by element, so it keeps the order the history has. */
  lemma {:induction false} FilterAppend(a: seq<Operation>, b: seq<Operation>, statuses: set<int>)
    ensures Filter(a + b, statuses) == Filter(a, statuses) + Filter(b, statuses)
  {
    if a == [] {
      assert a + b == b;
    } else {
      assert (a + b)[0] == a[0] && (a + b)[1..] == a[1..] + b;
      FilterAppend(a[1..], b, statuses);
    }
  }

  lemma FilterOne(o: Operation, statuses: set<int>)
    ensures Filter([o], statuses) == if o.Status in statuses then [o] else []
  {
    assert [o][1..] == [];
  }

  /** The index of the first operation with identifier `id`, or `|ops|` when there is none. */
  function FirstWithId(ops: seq<Operation>, id: string): (k: nat)
    reads ops
    ensures k <= |ops|
    ensures k < |ops| ==> ops[k].ID == id
    ensures forall j :: 0 <= j < k ==> ops[j].ID != id
  {
    if ops == [] then 0
    else if ops[0].ID == id then 0
    else 1 + FirstWithId(ops[1..], id)
  }

  /** Each entry of `s` once. */
  function Elements(s: seq<string>): set<string> {
    set x | x in s
  }

  lemma {:induction false} ElementsBound(s: seq<string>)
    ensures |Elements(s)| <= |s|
  {
    if s != [] {
      ElementsBound(s[1..]);
      assert Elements(s) == Elements(s[1..]) + {s[0]};
    }
  }

  /** `s` with its first `x` taken out. */
  function RemoveOne(s: seq<string>, x: string): (r: seq<string>)
    requires x in s
    ensures |r| == |s| - 1
    ensures forall y :: y in s && y != x ==> y in r
  {
    if s[0] == x then s[1..] else [s[0]] + RemoveOne(s[1..], x)
  }

  class OperationQueue {
    var MaxConcurrent: int
    var operations: seq<Operation>
    var running: map<string, Operation>
    /** Slots of the semaphore in use. */
    var inUse: nat
    /** The identifier each slot was taken for, one entry per slot. */
    ghost var holders: seq<string>

    ghost predicate Valid()
      reads this
    {
      MaxConcurrent >= 1 && inUse <= MaxConcurrent && inUse == |holders|
      && running.Keys <= Elements(holders)
    }

    /** `NewQueue`: a bound below one is raised to one. */
    constructor (maxConcurrent: int)
      ensures Valid()
      ensures MaxConcurrent == (if maxConcurrent < 1 then 1 else maxConcurrent)
      ensures operations == [] && running == map[] && inUse == 0
    {
      MaxConcurrent := if maxConcurrent < 1 then 1 else maxConcurrent;
      operations, running, inUse := [], map[], 0;
      holders := [];
    }

    /** `Add`: the operation goes to the end of the history. */
    method Add(op: Operation)
      requires Valid()
      modifies this
      ensures Valid()
      ensures operations == old(operations) + [op]
      ensures running == old(running) && inUse == old(inUse) && MaxConcurrent == old(MaxConcurrent)
    {
      operations := operations + [op];
    }

    /** The start of `runOperation`: take a free slot and list the operation as running. */
    method Admit(op: Operation) returns (admitted: bool)
      requires Valid()
      modifies this
      ensures Valid()
      ensures admitted <==> old(inUse) < MaxConcurrent
      ensures admitted ==> running == old(running)[op.ID := op] && inUse == old(inUse) + 1
      ensures !admitted ==> running == old(running) && inUse == old(inUse)
      ensures operations == old(operations) && MaxConcurrent == old(MaxConcurrent)
    {
      if inUse < MaxConcurrent {
        inUse := inUse + 1;
        holders := holders + [op.ID];
        running := running[op.ID := op];
        return true;
      }
      return false;
    }

    /** The end of `runOperation`, reached once the operation is finished or its context is
        done: unlist it, then give its slot back. */
    method Release(op: Operation)
      requires Valid() && op.ID in holders
      requires IsTerminal(op.Status) || op.Done
      modifies this
      ensures Valid()
      ensures running == old(running) - {op.ID} && inUse == old(inUse) - 1
      ensures operations == old(operations) && MaxConcurrent == old(MaxConcurrent)
    {
      ghost var rest := RemoveOne(holders, op.ID);
      assert running.Keys - {op.ID} <= Elements(rest);
      running := running - {op.ID};
      holders := rest;
      inUse := inUse - 1;
    }

    /** The running index never outgrows the bound. */
    lemma RunningBounded()
      requires Valid()
      ensures |running| <= MaxConcurrent
    {
      ElementsBound(holders);
      assert |running.Keys| <= |Elements(holders)| by {
        SubsetCardinality(running.Keys, Elements(holders));
      }
    }

    /** `Get`: the first operation with the identifier, or nothing. */
    method Get(id: string) returns (op: Operation?)
      ensures var k := FirstWithId(operations, id);
        op == if k < |operations| then operations[k] else null
    {
      var i := 0;
      while i < |operations|
        invariant 0 <= i <= |operations|
        invariant forall j :: 0 <= j < i ==> operations[j].ID != id
      {
        if operations[i].ID == id {
          FirstWithIdIs(operations, id, i);
          return operations[i];
        }
        i := i + 1;
      }
      FirstWithIdIs(operations, id, i);
      return null;
    }

    /** `GetAll`: the history as a value of its own. */
    method GetAll() returns (r: seq<Operation>)
      ensures r == operations
    {
      r := [];
      var i := 0;
      while i < |operations|
        invariant 0 <= i <= |operations|
        invariant r == operations[..i]
      {
        r := r + [operations[i]];
        i := i + 1;
      }
    }

    /** `GetRunning`: every operation of the running index once, in no particular order. */
    method GetRunning() returns (r: seq<Operation>)
      ensures |r| == |running|
      ensures forall o :: o in r <==> exists id :: id in running && running[id] == o
    {
      r := [];
      var left := running.Keys;
      while left != {}
        invariant left <= running.Keys
        invariant |r| + |left| == |running|
        invariant forall o :: o in r <==> exists id :: id in running.Keys - left && running[id] == o
        decreases |left|
      {
        var id :| id in left;
        r := r + [running[id]];
        left := left - {id};
      }
    }

    /** `GetPending`. */
    method GetPending() returns (r: seq<Operation>)
      ensures r == Filter(operations, {StatusPending})
    {
      r := Collect({StatusPending});
    }

    /** `GetCompleted`. */
    method GetCompleted() returns (r: seq<Operation>)
      ensures r == Filter(operations, {StatusCompleted})
    {
      r := Collect({StatusCompleted});
    }

    /** The loop `GetPending`, `GetCompleted` and `Clear` share. */
    method Collect(statuses: set<int>) returns (r: seq<Operation>)
      ensures r == Filter(operations, statuses)
    {
      var ops := operations;
      r := [];
      var i := 0;
      while i < |ops|
        invariant 0 <= i <= |ops|
        invariant r == Filter(ops[..i], statuses)
      {
        var o := ops[i];
        assert ops[..i + 1] == ops[..i] + [o];
        FilterAppend(ops[..i], [o], statuses);
        FilterOne(o, statuses);
        if o.Status in statuses {
          r := r + [o];
        }
        i := i + 1;
      }
      assert ops[..i] == ops;
    }

    /** `Cancel`: true exactly when `Get` finds the operation, which is then cancelled. */
    method Cancel(id: string) returns (found: bool)
      modifies set o | o in operations
      ensures var k := FirstWithId(old(operations), id);
        found == (k < |operations|)
        && (found ==> operations[k].Record() == CancelRec(old(operations[k].Record())))
        && forall o :: o in operations && (!found || o != operations[k]) ==> o.Record() == old(o.Record())
    {
      var op := Get(id);
      if op != null {
        op.Cancel();
        return true;
      }
      return false;
    }

    /** `CancelAll`: every active operation is cancelled; the others do not change. */
    method CancelAll()
      modifies set o | o in operations
      ensures forall o :: o in operations ==> o.Record() == CancelRec(old(o.Record()))
      ensures forall o :: o in operations ==> !IsActive(o.Status)
    {
      var i := 0;
      while i < |operations|
        invariant 0 <= i <= |operations|
        invariant forall o :: o in operations ==>
          o.Record() == if o in operations[..i] then CancelRec(old(o.Record())) else old(o.Record())
      {
        var op := operations[i];
        if IsActive(op.Status) {
          op.Cancel();
        }
        assert operations[..i + 1] == operations[..i] + [op];
        i := i + 1;
      }
      assert operations[..i] == operations;
    }

    /** `Clear`: keep the active operations, in their order. */
    method Clear()
      modifies this
      ensures operations == Filter(old(operations), {StatusPending, StatusRunning})
      ensures running == old(running) && inUse == old(inUse) && MaxConcurrent == old(MaxConcurrent)
      ensures holders == old(holders)
    {
      operations := Collect({StatusPending, StatusRunning});
    }

    /** `Count`. */
    method Count() returns (n: int)
      ensures n == |operations|
    {
      return |operations|;
    }

    /** `RunningCount`. */
    method RunningCount() returns (n: int)
      requires Valid()
      ensures n == |running| && n <= MaxConcurrent
    {
      RunningBounded();
      return |running|;
    }
  }

  lemma FirstWithIdIs(ops: seq<Operation>, id: string, i: nat)
    requires i <= |ops| && (forall j :: 0 <= j < i ==> ops[j].ID != id)
    requires i < |ops| ==> ops[i].ID == id
    ensures FirstWithId(ops, id) == i
  {
  }

  lemma {:induction false} SubsetCardinality(a: set<string>, b: set<string>)
    requires a <= b
    ensures |a| <= |b|
  {
    if a != {} {
      var x :| x in a;
      SubsetCardinality(a - {x}, b - {x});
    }
  }
}
