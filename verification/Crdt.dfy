/** The last-writer-wins map: registers ordered by (counter, site). */
module Crdt {
  import opened Common

  // -------------------------------------------------- the order on (counter, site)

  /** Code-point order on strings. */
  predicate TextAtMost(a: string, b: string) {
    a == [] || (b != [] && (a[0] < b[0] || (a[0] == b[0] && TextAtMost(a[1..], b[1..]))))
  }

  lemma {:induction false} TextOrder(a: string, b: string, c: string)
    ensures TextAtMost(a, b) || TextAtMost(b, a)
    ensures TextAtMost(a, b) && TextAtMost(b, a) ==> a == b
    ensures TextAtMost(a, b) && TextAtMost(b, c) ==> TextAtMost(a, c)
    decreases a
  {
    if a != [] {
      TextOrder(a[1..], if b == [] then [] else b[1..], if c == [] then [] else c[1..]);
      assert a == [a[0]] + a[1..];
      assert b != [] ==> b == [b[0]] + b[1..];
    }
  }

  datatype Stamp = Stamp(counter: int, site: string)

  predicate AtMost(x: Stamp, y: Stamp) {
    x.counter < y.counter || (x.counter == y.counter && TextAtMost(x.site, y.site))
  }

  lemma StampOrder(x: Stamp, y: Stamp, z: Stamp)
    ensures AtMost(x, y) || AtMost(y, x)
    ensures AtMost(x, y) && AtMost(y, x) ==> x == y
    ensures AtMost(x, y) && AtMost(y, z) ==> AtMost(x, z)
  {
    TextOrder(x.site, y.site, z.site);
  }

  lemma StampsTotallyOrdered()
    ensures forall x, y :: AtMost(x, y) || AtMost(y, x)
    ensures forall x, y :: AtMost(x, y) && AtMost(y, x) ==> x == y
    ensures forall x, y, z :: AtMost(x, y) && AtMost(y, z) ==> AtMost(x, z)
  {
    forall x, y, z ensures AtMost(x, y) || AtMost(y, x)
      ensures AtMost(x, y) && AtMost(y, x) ==> x == y
      ensures AtMost(x, y) && AtMost(y, z) ==> AtMost(x, z)
    {
      StampOrder(x, y, z);
    }
  }

  // ------------------------------------------------------------------- operations

  datatype Operation = Operation(key: string, value: string, stamp: Stamp)
  datatype Register = Register(stamp: Stamp, value: string)
  type Registers = map<string, Register>

  function Apply(m: Registers, op: Operation): Registers {
    if op.key !in m || AtMost(m[op.key].stamp, op.stamp) then m[op.key := Register(op.stamp, op.value)] else m
  }

  function ApplyAll(m: Registers, ops: seq<Operation>): Registers
    decreases ops
  {
    if ops == [] then m else ApplyAll(Apply(m, ops[0]), ops[1..])
  }

  /** Per key the larger stamp wins; on equal stamps the incoming value does. */
  function Merge(m: Registers, other: Registers): Registers {
    map key | key in m.Keys + other.Keys ::
      if key !in other || (key in m && !AtMost(m[key].stamp, other[key].stamp)) then m[key] else other[key]
  }

  class AutomergePrototypeCrdt {
    var state: Registers

    constructor ()
      ensures state == map[]
    {
      state := map[];
    }

    method ApplyOperation(op: Operation)
      modifies this
      ensures state == Apply(old(state), op)
    {
      if op.key !in state || AtMost(state[op.key].stamp, op.stamp) {
        state := state[op.key := Register(op.stamp, op.value)];
      }
    }

    method ApplyMany(ops: seq<Operation>)
      modifies this
      ensures state == ApplyAll(old(state), ops)
    {
      for i := 0 to |ops|
        invariant ApplyAll(state, ops[i..]) == ApplyAll(old(state), ops)
      {
        assert ops[i..][1..] == ops[i + 1..];
        ApplyOperation(ops[i]);
      }
    }

    method MergeFrom(other: AutomergePrototypeCrdt)
      modifies this
      ensures state == Merge(old(state), old(other.state))
    {
      var items := other.state;
      var todo := items.Keys;
      while todo != {}
        invariant todo <= items.Keys
        invariant state.Keys == old(state).Keys + (items.Keys - todo)
        invariant forall key <- state ::
                    state[key] == if key in todo then old(state)[key] else Merge(old(state), items)[key]
      {
        var key :| key in todo;
        ApplyOperation(Operation(key, items[key].value, items[key].stamp));
        todo := todo - {key};
      }
    }

    method ImportSnapshot(snapshot: Registers)
      modifies this
      ensures state == snapshot
    {
      state := snapshot;
    }
  }

  // ------------------------------------------------------------------ convergence

  /** `m` holds, for each key among `ops`, one of its operations with the largest stamp. */
  ghost predicate Summarises(m: Registers, ops: set<Operation>) {
    && (forall op <- ops :: op.key in m && AtMost(op.stamp, m[op.key].stamp))
    && (forall key <- m :: Operation(key, m[key].value, m[key].stamp) in ops)
  }

  /** No two operations tie for the last write of a key with different values. */
  ghost predicate LastWritesAgree(ops: set<Operation>) {
    forall a, b | a in ops && b in ops && IsLastWrite(a, ops) && IsLastWrite(b, ops) && a.key == b.key :: a.value == b.value
  }

  ghost predicate IsLastWrite(a: Operation, ops: set<Operation>) {
    forall op <- ops | op.key == a.key :: AtMost(op.stamp, a.stamp)
  }

  /** Key, counter and site fix the value. */
  ghost predicate StampsFixValues(ops: set<Operation>) {
    forall a, b | a in ops && b in ops && a.key == b.key && a.stamp == b.stamp :: a.value == b.value
  }

  lemma StampsFixLastWrites(ops: set<Operation>)
    requires StampsFixValues(ops)
    ensures LastWritesAgree(ops)
  {
    StampsTotallyOrdered();
    forall a, b | a in ops && b in ops && IsLastWrite(a, ops) && IsLastWrite(b, ops) && a.key == b.key
      ensures a.value == b.value
    {
      assert AtMost(a.stamp, b.stamp) && AtMost(b.stamp, a.stamp);
    }
  }

  lemma ApplySummarises(m: Registers, ops: set<Operation>, op: Operation)
    requires Summarises(m, ops)
    ensures Summarises(Apply(m, op), ops + {op})
  {
    StampsTotallyOrdered();
  }

  lemma {:induction false} ApplyAllSummarises(m: Registers, done: set<Operation>, ops: seq<Operation>)
    requires Summarises(m, done)
    ensures Summarises(ApplyAll(m, ops), done + Elements(ops))
    decreases ops
  {
    if ops == [] {
      assert done + Elements(ops) == done;
    } else {
      assert done + {ops[0]} + Elements(ops[1..]) == done + Elements(ops) by {
        assert ops == [ops[0]] + ops[1..];
      }
      ApplySummarises(m, done, ops[0]);
      ApplyAllSummarises(Apply(m, ops[0]), done + {ops[0]}, ops[1..]);
    }
  }

  lemma HistorySummarised(ops: seq<Operation>)
    ensures Summarises(ApplyAll(map[], ops), Elements(ops))
  {
    ApplyAllSummarises(map[], {}, ops);
    assert {} + Elements(ops) == Elements(ops);
  }

  lemma SummaryUnique(m: Registers, n: Registers, ops: set<Operation>)
    requires Summarises(m, ops) && Summarises(n, ops) && LastWritesAgree(ops)
    ensures m == n
  {
    StampsTotallyOrdered();
    forall key | key in m || key in n
      ensures key in m && key in n && m[key] == n[key]
    {
      if key in m { assert Operation(key, m[key].value, m[key].stamp) in ops; }
      if key in n { assert Operation(key, n[key].value, n[key].stamp) in ops; }
      var a := Operation(key, m[key].value, m[key].stamp);
      var b := Operation(key, n[key].value, n[key].stamp);
      assert IsLastWrite(a, ops) && IsLastWrite(b, ops);
      assert AtMost(a.stamp, b.stamp) && AtMost(b.stamp, a.stamp);
    }
    assert m.Keys == n.Keys;
  }

  /** Any order and any duplication of the same operations give the same map. */
  lemma Converges(ops: seq<Operation>, others: seq<Operation>)
    requires Elements(ops) == Elements(others) && LastWritesAgree(Elements(ops))
    ensures ApplyAll(map[], ops) == ApplyAll(map[], others)
  {
    HistorySummarised(ops);
    HistorySummarised(others);
    SummaryUnique(ApplyAll(map[], ops), ApplyAll(map[], others), Elements(ops));
  }

  lemma {:induction false} ApplyAllAppend(m: Registers, ops: seq<Operation>, more: seq<Operation>)
    ensures ApplyAll(m, ops + more) == ApplyAll(ApplyAll(m, ops), more)
    decreases ops
  {
    if ops == [] {
      assert ops + more == more;
    } else {
      ApplyAllAppend(Apply(m, ops[0]), ops[1..], more);
      assert (ops + more)[1..] == ops[1..] + more;
    }
  }

  lemma LastWriteTakesEffect(ops: seq<Operation>, a: Operation)
    requires a in ops && IsLastWrite(a, Elements(ops))
    ensures Elements(ops + [a]) == Elements(ops)
    ensures a.key in ApplyAll(map[], ops + [a]) && ApplyAll(map[], ops + [a])[a.key].value == a.value
  {
    HistorySummarised(ops);
    ApplyAllAppend(map[], ops, [a]);
    var m := ApplyAll(map[], ops);
    assert ApplyAll(m, [a]) == Apply(m, a);
    assert Operation(a.key, m[a.key].value, m[a.key].stamp) in Elements(ops);
  }

  /** Convergence holds exactly when no two last writes of a key disagree: otherwise the
      comparison that lets an equal stamp overwrite makes the outcome depend on the order. */
  lemma ConvergesIff(ops: seq<Operation>)
    ensures (forall others: seq<Operation> | Elements(others) == Elements(ops) ::
               ApplyAll(map[], others) == ApplyAll(map[], ops))
            <==> LastWritesAgree(Elements(ops))
  {
    if LastWritesAgree(Elements(ops)) {
      forall others: seq<Operation> | Elements(others) == Elements(ops)
        ensures ApplyAll(map[], others) == ApplyAll(map[], ops)
      {
        Converges(ops, others);
      }
    } else {
      var a, b :| a in Elements(ops) && b in Elements(ops) && IsLastWrite(a, Elements(ops))
                  && IsLastWrite(b, Elements(ops)) && a.key == b.key && a.value != b.value;
      LastWriteTakesEffect(ops, a);
      LastWriteTakesEffect(ops, b);
      assert ApplyAll(map[], ops + [a]) != ApplyAll(map[], ops + [b]);
      assert Elements(ops + [a]) == Elements(ops) && Elements(ops + [b]) == Elements(ops);
    }
  }

  /** Replaying everything on top of a snapshot of a part changes nothing. */
  lemma SnapshotThenReplay(ops: seq<Operation>, taken: nat)
    requires taken <= |ops| && LastWritesAgree(Elements(ops))
    ensures ApplyAll(ApplyAll(map[], ops[..taken]), ops) == ApplyAll(map[], ops)
  {
    ApplyAllAppend(map[], ops[..taken], ops);
    Converges(ops[..taken] + ops, ops);
  }

  // ------------------------------------------------------------------------ merge

  lemma MergeIdempotent(m: Registers)
    ensures Merge(m, m) == m
  {}

  lemma MergeAssociative(a: Registers, b: Registers, c: Registers)
    ensures Merge(Merge(a, b), c) == Merge(a, Merge(b, c))
  {
    StampsTotallyOrdered();
    assert Merge(Merge(a, b), c).Keys == Merge(a, Merge(b, c)).Keys;
  }

  /** Merging commutes exactly when equal stamps carry equal values. */
  lemma MergeCommutesIff(a: Registers, b: Registers)
    ensures Merge(a, b) == Merge(b, a) <==>
            forall key | key in a && key in b && a[key].stamp == b[key].stamp :: a[key].value == b[key].value
  {
    StampsTotallyOrdered();
    if forall key | key in a && key in b && a[key].stamp == b[key].stamp :: a[key].value == b[key].value {
      assert Merge(a, b).Keys == Merge(b, a).Keys;
    } else {
      var key :| key in a && key in b && a[key].stamp == b[key].stamp && a[key].value != b[key].value;
      assert Merge(a, b)[key] == b[key] && Merge(b, a)[key] == a[key];
    }
  }

  lemma MergeSummarises(m: Registers, n: Registers, xs: set<Operation>, ys: set<Operation>)
    requires Summarises(m, xs) && Summarises(n, ys)
    ensures Summarises(Merge(m, n), xs + ys)
  {
    StampsTotallyOrdered();
  }

  /** Merging two replicas is as good as having applied all their operations in one. */
  lemma MergeJoinsHistories(xs: seq<Operation>, ys: seq<Operation>)
    requires LastWritesAgree(Elements(xs + ys))
    ensures Merge(ApplyAll(map[], xs), ApplyAll(map[], ys)) == ApplyAll(map[], xs + ys)
  {
    HistorySummarised(xs);
    HistorySummarised(ys);
    HistorySummarised(xs + ys);
    MergeSummarises(ApplyAll(map[], xs), ApplyAll(map[], ys), Elements(xs), Elements(ys));
    assert Elements(xs + ys) == Elements(xs) + Elements(ys);
    SummaryUnique(Merge(ApplyAll(map[], xs), ApplyAll(map[], ys)), ApplyAll(map[], xs + ys), Elements(xs + ys));
  }

  // ---------------------------------------------------- the order, and what it keeps

  /** `a` is `b`, or continues as `b` does, or has the smaller character where they first differ. */
  predicate SortsUpTo(a: string, b: string) {
    a <= b || exists i | 0 <= i < |a| && i < |b| :: a[..i] == b[..i] && a[i] < b[i]
  }

  lemma {:induction false} TextAtMostIs(a: string, b: string)
    ensures TextAtMost(a, b) <==> SortsUpTo(a, b)
    decreases a
  {
    if a != [] && b != [] && a[0] == b[0] {
      TextAtMostIs(a[1..], b[1..]);
      assert a == [a[0]] + a[1..] && b == [b[0]] + b[1..];
      if i :| 0 <= i < |a| && i < |b| && a[..i] == b[..i] && a[i] < b[i] {
        assert a[1..][..i - 1] == a[..i][1..] && b[1..][..i - 1] == b[..i][1..];
        assert a[1..][i - 1] < b[1..][i - 1];
      }
      if j :| 0 <= j < |a[1..]| && j < |b[1..]| && a[1..][..j] == b[1..][..j] && a[1..][j] < b[1..][j] {
        assert a[..j + 1] == [a[0]] + a[1..][..j] && b[..j + 1] == [b[0]] + b[1..][..j];
        assert a[j + 1] < b[j + 1];
      }
    } else if a != [] && b != [] && a[0] < b[0] {
      assert a[..0] == b[..0];
    }
  }

  /** The write with this counter and site does not come after the other. */
  predicate NotLater(x: Stamp, y: Stamp) {
    x.counter < y.counter || (x.counter == y.counter && SortsUpTo(x.site, y.site))
  }

  lemma AtMostIs(x: Stamp, y: Stamp)
    ensures AtMost(x, y) <==> NotLater(x, y)
  {
    TextAtMostIs(x.site, y.site);
  }

  /** A write takes effect unless the register holds a later one; on a tie it does. */
  lemma WriteTakesEffectIff(m: Registers, op: Operation)
    ensures Apply(m, op) == if op.key in m && !NotLater(m[op.key].stamp, op.stamp) then m
                            else m[op.key := Register(op.stamp, op.value)]
  {
    if op.key in m { AtMostIs(m[op.key].stamp, op.stamp); }
  }

  /** After every history each register holds a write of its key, and none of its key is later:
      none has a larger counter, nor the same counter and a site that sorts after. */
  lemma HistoryKeepsLatest(ops: seq<Operation>)
    ensures var m := ApplyAll(map[], ops);
            && (forall op <- ops :: op.key in m && NotLater(op.stamp, m[op.key].stamp))
            && (forall op <- ops :: op.stamp.counter <= m[op.key].stamp.counter)
            && (forall key <- m :: Operation(key, m[key].value, m[key].stamp) in ops)
  {
    HistorySummarised(ops);
    var m := ApplyAll(map[], ops);
    forall op | op in ops ensures op.key in m && NotLater(op.stamp, m[op.key].stamp) {
      assert op in Elements(ops);
      AtMostIs(op.stamp, m[op.key].stamp);
    }
  }

  /** Merging keeps, key by key, the register that is not earlier, and the incoming one on a tie. */
  lemma MergeKeepsLatest(m: Registers, other: Registers, key: string)
    ensures key in Merge(m, other) <==> key in m || key in other
    ensures key in m && key !in other ==> Merge(m, other)[key] == m[key]
    ensures key !in m && key in other ==> Merge(m, other)[key] == other[key]
    ensures key in m && key in other ==>
              Merge(m, other)[key] == if NotLater(m[key].stamp, other[key].stamp) then other[key] else m[key]
  {
    if key in m && key in other { AtMostIs(m[key].stamp, other[key].stamp); }
  }
}
