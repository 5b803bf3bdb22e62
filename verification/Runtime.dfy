/** Hash-linked replay: booting from a snapshot, and catching up after being offline. */
module Runtime {
  import opened Common
  import opened Crdt

  datatype Body = Body(
    eventId: string, eventType: string, timestamp: int, actorPublicKey: string, encryptedPayload: string,
    previousHash: string, roomId: string, crdtSite: string, crdtCounter: int)

  datatype Envelope = Envelope(body: Body, signature: string)

  /** A signature check has three outcomes: a key or signature that does not decode, or has
      the wrong length, makes it raise. */
  datatype Signature = Genuine | Forged | Unreadable

  /** What the runtime takes from its libraries: the digest of a body, the signature check,
      and the key and value found in a payload (none when it does not decode). */
  datatype Library = Library(
    digest: Body -> string,
    verify: Envelope -> Signature,
    decode: string -> Option<(string, string)>)

  predicate Verified(lib: Library, e: Envelope) { lib.verify(e) == Genuine }

  predicate Raises(lib: Library, e: Envelope) { lib.verify(e) == Unreadable }

  const GENESIS := "genesis"

  /** Different bodies have different digests, and no digest reads "genesis". */
  ghost predicate Collisionless(lib: Library) {
    && (forall a, b :: lib.digest(a) == lib.digest(b) ==> a == b)
    && (forall a :: lib.digest(a) != GENESIS)
  }

  datatype Failure = UnreadableSignature | BadSignature | BrokenChain | BadPayload | OverBudget | NoStartingPoint

  /** The part of a node that replay changes. */
  datatype Node = Node(registers: Registers, log: seq<Envelope>)

  predicate Decodes(lib: Library, e: Envelope) {
    lib.decode(e.body.encryptedPayload).Some?
  }

  function OperationOf(lib: Library, e: Envelope): Operation
    requires Decodes(lib, e)
  {
    var entry := lib.decode(e.body.encryptedPayload).value;
    Operation(entry.0, entry.1, Stamp(e.body.crdtCounter, e.body.crdtSite))
  }

  function ApplyEvent(lib: Library, node: Node, e: Envelope): Node
    requires Decodes(lib, e)
  {
    Node(Apply(node.registers, OperationOf(lib, e)), node.log + [e])
  }

  function LastHash(lib: Library, log: seq<Envelope>): string {
    if log == [] then GENESIS else lib.digest(log[|log| - 1].body)
  }

  /** Strict replay: the first event that fails a check ends it. */
  function Replay(lib: Library, node: Node, expected: string, events: seq<Envelope>): (Node, Option<Failure>)
    decreases events
  {
    if events == [] then (node, None)
    else if Raises(lib, events[0]) then (node, Some(UnreadableSignature))
    else if !Verified(lib, events[0]) then (node, Some(BadSignature))
    else if events[0].body.previousHash != expected then (node, Some(BrokenChain))
    else if !Decodes(lib, events[0]) then (node, Some(BadPayload))
    else Replay(lib, ApplyEvent(lib, node, events[0]), lib.digest(events[0].body), events[1..])
  }

  /** Lenient replay: events that fail the signature or hash check are skipped; one whose
      signature cannot be read ends it. */
  function Scan(lib: Library, node: Node, expected: string, events: seq<Envelope>, applied: nat): (Node, Result<nat, Failure>)
    decreases events
  {
    if events == [] then (node, Ok(applied))
    else if Raises(lib, events[0]) then (node, Err(UnreadableSignature))
    else if !Verified(lib, events[0]) || events[0].body.previousHash != expected then
      Scan(lib, node, expected, events[1..], applied)
    else if !Decodes(lib, events[0]) then (node, Err(BadPayload))
    else Scan(lib, ApplyEvent(lib, node, events[0]), lib.digest(events[0].body), events[1..], applied + 1)
  }

  /** Index of the first event that continues from `hash`, or the length if none does. */
  function FirstFrom(hash: string, events: seq<Envelope>): (i: nat)
    ensures i <= |events|
    ensures forall j | 0 <= j < i :: events[j].body.previousHash != hash
    ensures i < |events| ==> events[i].body.previousHash == hash
  {
    if events == [] || events[0].body.previousHash == hash then 0
    else
      var rest := FirstFrom(hash, events[1..]);
      assert forall j | 0 <= j < rest + 1 :: events[j].body.previousHash != hash by {
        forall j | 0 <= j < rest + 1 ensures events[j].body.previousHash != hash {
          if j > 0 { assert events[j] == events[1..][j - 1]; }
        }
      }
      rest + 1
  }

  /** Where the scan of the peers' events begins. */
  function StartOf(lastKnown: string, peers: seq<Envelope>): (i: nat)
    ensures i <= |peers|
  {
    if lastKnown == GENESIS then 0 else FirstFrom(lastKnown, peers)
  }

  function Recover(lib: Library, node: Node, budget: int, lastKnown: string, peers: seq<Envelope>)
    : (Node, Result<nat, Failure>)
  {
    if |peers| > budget then (node, Err(OverBudget))
    else
      var start := StartOf(lastKnown, peers);
      if lastKnown != GENESIS && start == |peers| then (node, Err(NoStartingPoint))
      else Scan(lib, node, lastKnown, peers[start..], 0)
  }

  class BlackoutNodeRuntime {
    const lib: Library
    const maxPendingEvents: int
    const crdt: AutomergePrototypeCrdt
    var eventLog: seq<Envelope>

    constructor (lib: Library, maxPendingEvents: int)
      ensures this.lib == lib && this.maxPendingEvents == maxPendingEvents
      ensures fresh(crdt) && View() == Node(map[], [])
    {
      this.lib := lib;
      this.maxPendingEvents := maxPendingEvents;
      crdt := new AutomergePrototypeCrdt();
      eventLog := [];
    }

    function View(): Node
      reads this, crdt
    {
      Node(crdt.state, eventLog)
    }

    method ApplyEnvelope(e: Envelope)
      requires Decodes(lib, e)
      modifies this, crdt
      ensures View() == ApplyEvent(lib, old(View()), e)
    {
      crdt.ApplyOperation(OperationOf(lib, e));
      eventLog := eventLog + [e];
    }

    method BootFromSnapshotAndReplay(snapshot: Registers, events: seq<Envelope>) returns (failure: Option<Failure>)
      modifies this, crdt
      ensures (View(), failure) == Replay(lib, Node(snapshot, []), GENESIS, events)
    {
      crdt.ImportSnapshot(snapshot);
      eventLog := [];
      var expected := GENESIS;
      for i := 0 to |events|
        invariant Replay(lib, View(), expected, events[i..]) == Replay(lib, Node(snapshot, []), GENESIS, events)
      {
        assert events[i..][0] == events[i] && events[i..][1..] == events[i + 1..];
        if Raises(lib, events[i]) { return Some(UnreadableSignature); }
        if !Verified(lib, events[i]) { return Some(BadSignature); }
        if events[i].body.previousHash != expected { return Some(BrokenChain); }
        if !Decodes(lib, events[i]) { return Some(BadPayload); }
        ApplyEnvelope(events[i]);
        expected := lib.digest(events[i].body);
      }
      return None;
    }

    method RecoverOfflineRejoin(lastKnown: string, peers: seq<Envelope>) returns (r: Result<nat, Failure>)
      modifies this, crdt
      ensures (View(), r) == Recover(lib, old(View()), maxPendingEvents, lastKnown, peers)
    {
      if |peers| > maxPendingEvents { return Err(OverBudget); }
      var start := 0;
      if lastKnown != GENESIS {
        while start < |peers| && peers[start].body.previousHash != lastKnown
          invariant start <= |peers|
          invariant forall j | 0 <= j < start :: peers[j].body.previousHash != lastKnown
        {
          start := start + 1;
        }
        assert start == FirstFrom(lastKnown, peers);
        if start == |peers| { return Err(NoStartingPoint); }
      }
      var expected, applied := lastKnown, 0;
      for i := start to |peers|
        invariant Scan(lib, View(), expected, peers[i..], applied)
                  == Scan(lib, old(View()), lastKnown, peers[start..], 0)
      {
        assert peers[i..][0] == peers[i] && peers[i..][1..] == peers[i + 1..];
        if Raises(lib, peers[i]) { return Err(UnreadableSignature); }
        if !Verified(lib, peers[i]) || peers[i].body.previousHash != expected { continue; }
        if !Decodes(lib, peers[i]) { return Err(BadPayload); }
        ApplyEnvelope(peers[i]);
        expected := lib.digest(peers[i].body);
        applied := applied + 1;
      }
      return Ok(applied);
    }
  }

  // ---------------------------------------------------------------------- chains

  /** The hash that event `i` of the chain continues from. */
  function HashAt(lib: Library, chain: seq<Envelope>, i: nat): string
    requires i <= |chain|
  {
    LastHash(lib, chain[..i])
  }

  /** Event `i` is signed, continues from the hash before it and decodes. */
  predicate FollowsAt(lib: Library, chain: seq<Envelope>, i: nat)
    requires i < |chain|
  {
    Verified(lib, chain[i]) && chain[i].body.previousHash == HashAt(lib, chain, i) && Decodes(lib, chain[i])
  }

  ghost predicate ValidChain(lib: Library, chain: seq<Envelope>) {
    && (forall i | 0 <= i < |chain| :: FollowsAt(lib, chain, i))
    && (forall e <- chain :: Decodes(lib, e))
  }

  function Operations(lib: Library, chain: seq<Envelope>): seq<Operation>
    requires forall e <- chain :: Decodes(lib, e)
  {
    seq(|chain|, i requires 0 <= i < |chain| => OperationOf(lib, chain[i]))
  }

  lemma HashAtNext(lib: Library, chain: seq<Envelope>, i: nat)
    requires i < |chain|
    ensures HashAt(lib, chain, i + 1) == lib.digest(chain[i].body)
  {
    assert chain[..i + 1][i] == chain[i];
  }

  /** No hash occurs twice along a chain. */
  lemma {:induction false} HashesDistinct(lib: Library, chain: seq<Envelope>, i: nat, j: nat)
    requires Collisionless(lib) && ValidChain(lib, chain)
    requires i < j <= |chain|
    ensures HashAt(lib, chain, i) != HashAt(lib, chain, j)
  {
    HashAtNext(lib, chain, j - 1);
    assert FollowsAt(lib, chain, j - 1);
    if i > 0 {
      assert FollowsAt(lib, chain, i - 1);
      HashAtNext(lib, chain, i - 1);
      HashesDistinct(lib, chain, i - 1, j - 1);
    }
  }

  lemma ReplayPrefix(lib: Library, snapshot: Registers, chain: seq<Envelope>, i: nat)
    requires i <= |chain| && ValidChain(lib, chain)
    ensures Replay(lib, Node(ApplyAll(snapshot, Operations(lib, chain[..i])), chain[..i]), HashAt(lib, chain, i), chain[i..])
            == (Node(ApplyAll(snapshot, Operations(lib, chain)), chain), None)
    decreases |chain| - i
  {
    if i == |chain| {
      assert chain[..i] == chain;
    } else {
      assert FollowsAt(lib, chain, i);
      var ops := Operations(lib, chain[..i]);
      assert Operations(lib, chain[..i + 1]) == ops + [OperationOf(lib, chain[i])];
      ApplyAllAppend(snapshot, ops, [OperationOf(lib, chain[i])]);
      assert ApplyAll(ApplyAll(snapshot, ops), [OperationOf(lib, chain[i])])
          == Apply(ApplyAll(snapshot, ops), OperationOf(lib, chain[i]));
      assert chain[..i + 1] == chain[..i] + [chain[i]];
      assert chain[i..][1..] == chain[i + 1..];
      HashAtNext(lib, chain, i);
      ReplayPrefix(lib, snapshot, chain, i + 1);
    }
  }

  /** A boot succeeds exactly on valid chains, and then holds the chain and its effect. */
  lemma BootAcceptsChainsIff(lib: Library, snapshot: Registers, events: seq<Envelope>)
    ensures Replay(lib, Node(snapshot, []), GENESIS, events).1.None? <==> ValidChain(lib, events)
    ensures ValidChain(lib, events) ==>
              Replay(lib, Node(snapshot, []), GENESIS, events).0
              == Node(ApplyAll(snapshot, Operations(lib, events)), events)
  {
    if ValidChain(lib, events) {
      ReplayPrefix(lib, snapshot, events, 0);
      assert events[..0] == [] && events[0..] == events;
    } else {
      assert exists j :: 0 <= j < |events| && !FollowsAt(lib, events, j) by {
        assert forall j | 0 <= j < |events| && !Decodes(lib, events[j]) :: !FollowsAt(lib, events, j);
      }
      ReplayRejects(lib, Node(snapshot, []), events, 0);
      assert events[0..] == events && events[..0] == [];
    }
  }

  lemma {:induction false} ReplayRejects(lib: Library, node: Node, events: seq<Envelope>, i: nat)
    requires i <= |events|
    requires !forall j | i <= j < |events| :: FollowsAt(lib, events, j)
    ensures Replay(lib, node, HashAt(lib, events, i), events[i..]).1.Some?
    decreases |events| - i
  {
    if FollowsAt(lib, events, i) {
      assert events[i..][0] == events[i] && events[i..][1..] == events[i + 1..];
      HashAtNext(lib, events, i);
      ReplayRejects(lib, ApplyEvent(lib, node, events[i]), events, i + 1);
    }
  }

  /** Booting from a snapshot of any prefix and replaying the whole chain is booting from
      nothing, provided no two last writes disagree. */
  lemma BootFromPrefixSnapshot(lib: Library, chain: seq<Envelope>, taken: nat)
    requires ValidChain(lib, chain) && taken <= |chain|
    requires LastWritesAgree(Elements(Operations(lib, chain)))
    ensures var snapshot := Replay(lib, Node(map[], []), GENESIS, chain[..taken]).0.registers;
            Replay(lib, Node(snapshot, []), GENESIS, chain) == Replay(lib, Node(map[], []), GENESIS, chain)
  {
    assert ValidChain(lib, chain[..taken]) by {
      forall i | 0 <= i < taken ensures FollowsAt(lib, chain[..taken], i) {
        assert chain[..taken][..i] == chain[..i];
        assert FollowsAt(lib, chain, i);
      }
    }
    BootAcceptsChainsIff(lib, map[], chain[..taken]);
    var ops := Operations(lib, chain);
    assert Operations(lib, chain[..taken]) == ops[..taken];
    BootAcceptsChainsIff(lib, map[], chain);
    BootAcceptsChainsIff(lib, ApplyAll(map[], ops[..taken]), chain);
    SnapshotThenReplay(ops, taken);
  }

  lemma OperationIs(lib: Library, e: Envelope)
    requires Decodes(lib, e)
    ensures lib.decode(e.body.encryptedPayload) == Some((OperationOf(lib, e).key, OperationOf(lib, e).value))
    ensures OperationOf(lib, e).stamp == Stamp(e.body.crdtCounter, e.body.crdtSite)
  {}

  /** The key the event's payload names is held, with no smaller a counter. */
  predicate NamesHeldKey(lib: Library, e: Envelope, m: Registers) {
    var payload := lib.decode(e.body.encryptedPayload);
    payload.Some? && payload.value.0 in m && e.body.crdtCounter <= m[payload.value.0].stamp.counter
  }

  /** Some event of the chain wrote this. */
  ghost predicate HeldByChain(lib: Library, chain: seq<Envelope>, key: string, held: Register) {
    exists e <- chain ::
      && lib.decode(e.body.encryptedPayload) == Some((key, held.value))
      && e.body.crdtCounter == held.stamp.counter && e.body.crdtSite == held.stamp.site
  }

  lemma PayloadIsHeld(lib: Library, chain: seq<Envelope>, i: nat)
    requires i < |chain| && forall e <- chain :: Decodes(lib, e)
    ensures NamesHeldKey(lib, chain[i], ApplyAll(map[], Operations(lib, chain)))
  {
    var ops := Operations(lib, chain);
    HistoryKeepsLatest(ops);
    assert ops[i] in ops;
    OperationIs(lib, chain[i]);
  }

  lemma HeldIsPayload(lib: Library, chain: seq<Envelope>, key: string)
    requires forall e <- chain :: Decodes(lib, e)
    requires key in ApplyAll(map[], Operations(lib, chain))
    ensures HeldByChain(lib, chain, key, ApplyAll(map[], Operations(lib, chain))[key])
  {
    var ops := Operations(lib, chain);
    HistoryKeepsLatest(ops);
    var held := ApplyAll(map[], ops)[key];
    var i :| 0 <= i < |ops| && ops[i] == Operation(key, held.value, held.stamp);
    OperationIs(lib, chain[i]);
    assert chain[i] in chain;
  }

  /** A node booted from nothing holds, for every key some payload of the chain names, the value
      of a payload that names it, and no event for that key has a larger counter. */
  lemma BootedHoldsPayloads(lib: Library, chain: seq<Envelope>)
    requires ValidChain(lib, chain)
    ensures var m := Replay(lib, Node(map[], []), GENESIS, chain).0.registers;
            && (forall e <- chain :: NamesHeldKey(lib, e, m))
            && (forall key <- m :: HeldByChain(lib, chain, key, m[key]))
  {
    BootAcceptsChainsIff(lib, map[], chain);
    var m := ApplyAll(map[], Operations(lib, chain));
    forall i | 0 <= i < |chain| ensures NamesHeldKey(lib, chain[i], m) { PayloadIsHeld(lib, chain, i); }
    forall key | key in m ensures HeldByChain(lib, chain, key, m[key]) { HeldIsPayload(lib, chain, key); }
  }

  /** Event `i` is the first that cannot follow, and this is what is wrong with it. */
  predicate FailsAt(lib: Library, events: seq<Envelope>, i: nat, reason: Failure)
    requires i < |events|
  {
    if lib.verify(events[i]).Unreadable? then reason == UnreadableSignature
    else if lib.verify(events[i]).Forged? then reason == BadSignature
    else if events[i].body.previousHash != HashAt(lib, events, i) then reason == BrokenChain
    else lib.decode(events[i].body.encryptedPayload).None? && reason == BadPayload
  }

  /** A boot that fails has applied every event before the first that cannot follow, and says
      what is wrong with that one. */
  lemma {:induction false} BootStopsAt(lib: Library, snapshot: Registers, events: seq<Envelope>, i: nat, bad: nat, reason: Failure)
    requires i <= bad < |events| && FailsAt(lib, events, bad, reason)
    requires forall j | 0 <= j < bad :: FollowsAt(lib, events, j)
    requires forall e <- events[..bad] :: Decodes(lib, e)
    ensures Replay(lib, Node(ApplyAll(snapshot, Operations(lib, events[..i])), events[..i]), HashAt(lib, events, i), events[i..])
            == (Node(ApplyAll(snapshot, Operations(lib, events[..bad])), events[..bad]), Some(reason))
    decreases bad - i
  {
    assert events[i..][0] == events[i];
    if i < bad {
      assert FollowsAt(lib, events, i);
      var ops := Operations(lib, events[..i]);
      assert Operations(lib, events[..i + 1]) == ops + [OperationOf(lib, events[i])];
      ApplyAllAppend(snapshot, ops, [OperationOf(lib, events[i])]);
      assert ApplyAll(ApplyAll(snapshot, ops), [OperationOf(lib, events[i])])
          == Apply(ApplyAll(snapshot, ops), OperationOf(lib, events[i]));
      assert events[..i + 1] == events[..i] + [events[i]];
      assert events[i..][1..] == events[i + 1..];
      HashAtNext(lib, events, i);
      BootStopsAt(lib, snapshot, events, i + 1, bad, reason);
    }
  }

  // -------------------------------------------------------------------- catch-up

  /** Too many events, or none that continues from the hash, and the node stays as it is. */
  lemma RecoveryRefusedIff(lib: Library, node: Node, budget: int, lastKnown: string, peers: seq<Envelope>)
    ensures Recover(lib, node, budget, lastKnown, peers) == (node, Err(OverBudget)) <==> |peers| > budget
    ensures Recover(lib, node, budget, lastKnown, peers) == (node, Err(NoStartingPoint)) <==>
            |peers| <= budget && lastKnown != "genesis" && forall p <- peers :: p.body.previousHash != lastKnown
  {
    ScanNeverRefuses(lib, node, lastKnown, peers[StartOf(lastKnown, peers)..], 0);
    if |peers| <= budget && lastKnown != GENESIS && StartOf(lastKnown, peers) < |peers| {
      assert peers[StartOf(lastKnown, peers)] in peers;
    }
  }

  lemma {:induction false} ScanNeverRefuses(lib: Library, node: Node, expected: string, events: seq<Envelope>, applied: nat)
    ensures var r := Scan(lib, node, expected, events, applied).1;
            r.Err? ==> r.error == UnreadableSignature || r.error == BadPayload
    decreases events
  {
    if events != [] {
      ScanNeverRefuses(lib, node, expected, events[1..], applied);
      if Decodes(lib, events[0]) {
        ScanNeverRefuses(lib, ApplyEvent(lib, node, events[0]), lib.digest(events[0].body), events[1..], applied + 1);
      }
    }
  }

  predicate IsSubsequence(a: seq<Envelope>, b: seq<Envelope>) {
    a == [] || (b != [] && ((a[0] == b[0] && IsSubsequence(a[1..], b[1..])) || IsSubsequence(a, b[1..])))
  }

  lemma {:induction false} SubsequenceTail(a: seq<Envelope>, b: seq<Envelope>)
    requires a != [] && IsSubsequence(a, b)
    ensures b != [] && IsSubsequence(a[1..], b[1..])
  {
    if !(a[0] == b[0] && IsSubsequence(a[1..], b[1..])) {
      SubsequenceTail(a, b[1..]);
      assert IsSubsequence(a[1..], b[1..][1..]);
    }
  }

  lemma {:induction false} SubsequenceSkip(a: seq<Envelope>, b: seq<Envelope>, n: nat)
    requires a != [] && IsSubsequence(a, b) && n <= |b|
    requires a[0] !in b[..n]
    ensures n < |b| && IsSubsequence(a, b[n..])
  {
    if n > 0 {
      assert b[0] == b[..n][0];
      assert b[1..][..n - 1] == b[..n][1..];
      SubsequenceSkip(a, b[1..], n - 1);
      assert b[1..][n - 1..] == b[n..];
    } else {
      assert b[0..] == b;
    }
  }

  /** No validly signed event from outside the chain continues from one of its hashes. */
  ghost predicate NoForeignLinks(lib: Library, chain: seq<Envelope>, peers: seq<Envelope>) {
    forall p <- peers :: Verified(lib, p) && (exists i :: 0 <= i <= |chain| && p.body.previousHash == HashAt(lib, chain, i))
                         ==> p in chain
  }

  /** At hash `i` of the chain, only event `i` of the chain fits. */
  lemma OnlyNextFits(lib: Library, chain: seq<Envelope>, peers: seq<Envelope>, i: nat, p: Envelope)
    requires Collisionless(lib) && ValidChain(lib, chain) && NoForeignLinks(lib, chain, peers)
    requires i <= |chain| && p in peers && Verified(lib, p) && p.body.previousHash == HashAt(lib, chain, i)
    ensures i < |chain| && p == chain[i]
  {
    var j :| 0 <= j < |chain| && chain[j] == p;
    assert FollowsAt(lib, chain, j);
    if j < i { HashesDistinct(lib, chain, j, i); }
    if i < j { HashesDistinct(lib, chain, i, j); }
  }

  function NodeAt(lib: Library, chain: seq<Envelope>, i: nat): Node
    requires i <= |chain| && forall e <- chain :: Decodes(lib, e)
  {
    Node(ApplyAll(map[], Operations(lib, chain[..i])), chain[..i])
  }

  lemma NodeAtNext(lib: Library, chain: seq<Envelope>, i: nat)
    requires i < |chain| && forall e <- chain :: Decodes(lib, e)
    ensures NodeAt(lib, chain, i + 1) == ApplyEvent(lib, NodeAt(lib, chain, i), chain[i])
  {
    var ops := Operations(lib, chain[..i]);
    var op := OperationOf(lib, chain[i]);
    assert chain[..i + 1] == chain[..i] + [chain[i]];
    assert Operations(lib, chain[..i + 1]) == ops + [op];
    ApplyAllAppend(map[], ops, [op]);
    assert ApplyAll(ApplyAll(map[], ops), [op]) == Apply(ApplyAll(map[], ops), op);
  }

  predicate LinksAt(lib: Library, chain: seq<Envelope>, p: Envelope, i: nat) {
    i <= |chain| && Verified(lib, p) && p.body.previousHash == HashAt(lib, chain, i)
  }

  predicate IsAt(chain: seq<Envelope>, p: Envelope, i: nat) {
    i < |chain| && p == chain[i]
  }

  /** Wherever the scan stands, the only peer event that can be applied is the next one. */
  ghost predicate OnlyNextLinks(lib: Library, chain: seq<Envelope>, peers: seq<Envelope>) {
    forall p, i | p in peers && LinksAt(lib, chain, p, i) :: IsAt(chain, p, i)
  }

  lemma NoForeignLinksMeansOnlyNext(lib: Library, chain: seq<Envelope>, peers: seq<Envelope>)
    requires Collisionless(lib) && ValidChain(lib, chain) && NoForeignLinks(lib, chain, peers)
    ensures OnlyNextLinks(lib, chain, peers)
  {
    forall p, i | p in peers && LinksAt(lib, chain, p, i)
      ensures IsAt(chain, p, i)
    {
      OnlyNextFits(lib, chain, peers, i, p);
    }
  }

  /** The events before the first whose signature check raises. */
  function Readable(lib: Library, events: seq<Envelope>): seq<Envelope> {
    if events == [] || Raises(lib, events[0]) then [] else [events[0]] + Readable(lib, events[1..])
  }

  predicate NoneRaises(lib: Library, events: seq<Envelope>) { forall e <- events :: !Raises(lib, e) }

  lemma {:induction false} AllReadable(lib: Library, events: seq<Envelope>)
    requires NoneRaises(lib, events)
    ensures Readable(lib, events) == events
  {
    if events != [] { AllReadable(lib, events[1..]); }
  }

  /** How far along the chain a scan gets that takes each next event as it comes. */
  function Reached(lib: Library, chain: seq<Envelope>, events: seq<Envelope>, i: nat): (r: nat)
    requires i <= |chain|
    ensures i <= r <= |chain|
    decreases events
  {
    if events == [] || Raises(lib, events[0]) then i
    else if IsAt(chain, events[0], i) then Reached(lib, chain, events[1..], i + 1)
    else Reached(lib, chain, events[1..], i)
  }

  /** Taking each next event as it comes gets to the end exactly when that is possible. */
  lemma {:induction false} ReachesEndIff(lib: Library, chain: seq<Envelope>, events: seq<Envelope>, i: nat)
    requires i <= |chain|
    ensures Reached(lib, chain, events, i) == |chain| <==> IsSubsequence(chain[i..], Readable(lib, events))
    decreases events
  {
    if events != [] && !Raises(lib, events[0]) {
      var read := Readable(lib, events);
      assert read[0] == events[0] && read[1..] == Readable(lib, events[1..]);
      if IsAt(chain, events[0], i) {
        ReachesEndIff(lib, chain, events[1..], i + 1);
        assert chain[i..][0] == chain[i] && chain[i..][1..] == chain[i + 1..];
        if IsSubsequence(chain[i..], read) { SubsequenceTail(chain[i..], read); }
      } else {
        ReachesEndIff(lib, chain, events[1..], i);
        assert i < |chain| ==> chain[i..][0] == chain[i] != read[0];
      }
    }
  }

  lemma {:induction false} ScanReaches(lib: Library, chain: seq<Envelope>, events: seq<Envelope>, i: nat, applied: nat)
    requires ValidChain(lib, chain) && OnlyNextLinks(lib, chain, events) && i <= |chain|
    ensures var r := Scan(lib, NodeAt(lib, chain, i), HashAt(lib, chain, i), events, applied);
            && r.0 == NodeAt(lib, chain, Reached(lib, chain, events, i))
            && (r.1.Ok? <==> NoneRaises(lib, events))
            && (r.1.Ok? ==> r.1.value == applied + Reached(lib, chain, events, i) - i)
            && (r.1.Err? ==> r.1.error == UnreadableSignature)
    decreases events
  {
    if events != [] && !Raises(lib, events[0]) {
      var p := events[0];
      assert i < |chain| ==> FollowsAt(lib, chain, i);
      assert NoneRaises(lib, events) <==> NoneRaises(lib, events[1..]) by {
        assert forall e <- events :: e == p || e in events[1..];
      }
      if LinksAt(lib, chain, p, i) {
        assert IsAt(chain, p, i);
        HashAtNext(lib, chain, i);
        NodeAtNext(lib, chain, i);
        ScanReaches(lib, chain, events[1..], i + 1, applied + 1);
      } else {
        assert i < |chain| ==> LinksAt(lib, chain, chain[i], i);
        assert !IsAt(chain, p, i);
        ScanReaches(lib, chain, events[1..], i, applied);
      }
    }
  }

  lemma {:induction false} SubsequenceOfSuffix(a: seq<Envelope>, b: seq<Envelope>, n: nat)
    requires n <= |b| && IsSubsequence(a, b[n..])
    ensures IsSubsequence(a, b)
  {
    if n > 0 {
      assert b[1..][n - 1..] == b[n..];
      SubsequenceOfSuffix(a, b[1..], n - 1);
    } else {
      assert b[0..] == b;
    }
  }

  /** The events a recovery from event `have` of the chain goes through. */
  function Scanned(lib: Library, chain: seq<Envelope>, have: nat, peers: seq<Envelope>): seq<Envelope>
    requires have <= |chain|
  {
    peers[StartOf(HashAt(lib, chain, have), peers)..]
  }

  /** The search for a starting point passes over nothing that is still missing. */
  lemma StartSkipsNothing(lib: Library, chain: seq<Envelope>, peers: seq<Envelope>, have: nat)
    requires ValidChain(lib, chain) && have < |chain|
    ensures IsSubsequence(chain[have..], Scanned(lib, chain, have, peers)) <==> IsSubsequence(chain[have..], peers)
  {
    var last := HashAt(lib, chain, have);
    var start := StartOf(last, peers);
    assert FollowsAt(lib, chain, have);
    assert chain[have].body.previousHash == last && chain[have..][0] == chain[have];
    if IsSubsequence(chain[have..], peers) { SubsequenceSkip(chain[have..], peers, start); }
    if IsSubsequence(chain[have..], peers[start..]) { SubsequenceOfSuffix(chain[have..], peers, start); }
  }

  /** What a recovery from event `have` of the chain ends with. */
  lemma RecoverReaches(lib: Library, chain: seq<Envelope>, peers: seq<Envelope>, have: nat, budget: int)
    requires ValidChain(lib, chain) && OnlyNextLinks(lib, chain, peers)
    requires have < |chain| && |peers| <= budget
    ensures var r := Recover(lib, NodeAt(lib, chain, have), budget, HashAt(lib, chain, have), peers);
            var scanned := Scanned(lib, chain, have, peers);
            var reached := Reached(lib, chain, scanned, have);
            && r.0 == NodeAt(lib, chain, reached)
            && (r.1.Ok? <==> NoneRaises(lib, scanned) && (scanned != [] || HashAt(lib, chain, have) == GENESIS))
            && (r.1.Ok? ==> r.1.value == reached - have)
  {
    ScanReaches(lib, chain, Scanned(lib, chain, have, peers), have, 0);
  }

  /** The node itself ends with the whole chain exactly when the missing events are among
      those scanned before the first unreadable signature, whatever else there is. */
  lemma ChainCompletedIff(lib: Library, chain: seq<Envelope>, peers: seq<Envelope>, have: nat, budget: int)
    requires Collisionless(lib) && ValidChain(lib, chain) && NoForeignLinks(lib, chain, peers)
    requires have < |chain| && |peers| <= budget
    ensures Recover(lib, NodeAt(lib, chain, have), budget, LastHash(lib, chain[..have]), peers).0.log == chain
            <==> IsSubsequence(chain[have..], Readable(lib, Scanned(lib, chain, have, peers)))
  {
    NoForeignLinksMeansOnlyNext(lib, chain, peers);
    RecoverReaches(lib, chain, peers, have, budget);
    ReachesEndIff(lib, chain, Scanned(lib, chain, have, peers), have);
    assert chain[..|chain|] == chain;
  }

  /** A node holding a proper prefix of a chain catches up through any noise, duplicates and
      events that fail a check: the recovery succeeds with the chain, its state and its count
      if and only if the missing events are there as a subsequence and no event scanned has
      an unreadable signature. */
  lemma CatchesUpThroughNoiseIff(lib: Library, chain: seq<Envelope>, peers: seq<Envelope>, have: nat, budget: int)
    requires Collisionless(lib) && ValidChain(lib, chain) && NoForeignLinks(lib, chain, peers)
    requires have < |chain| && |peers| <= budget
    ensures var r := Recover(lib, NodeAt(lib, chain, have), budget, LastHash(lib, chain[..have]), peers);
            var booted := Replay(lib, Node(map[], []), GENESIS, chain).0;
            r.0 == booted && r.1.Ok? && r.1.value == |chain| - have
            <==> IsSubsequence(chain[have..], peers) && NoneRaises(lib, Scanned(lib, chain, have, peers))
  {
    NoForeignLinksMeansOnlyNext(lib, chain, peers);
    RecoverReaches(lib, chain, peers, have, budget);
    FullNodeIsBooted(lib, chain);
    var scanned := Scanned(lib, chain, have, peers);
    ReachesEndIff(lib, chain, scanned, have);
    StartSkipsNothing(lib, chain, peers, have);
    if NoneRaises(lib, scanned) { AllReadable(lib, scanned); }
    assert NodeAt(lib, chain, Reached(lib, chain, scanned, have)).log == chain[..Reached(lib, chain, scanned, have)];
    assert chain[..|chain|] == chain;
  }

  lemma FullNodeIsBooted(lib: Library, chain: seq<Envelope>)
    requires ValidChain(lib, chain)
    ensures NodeAt(lib, chain, |chain|) == Replay(lib, Node(map[], []), GENESIS, chain).0
  {
    BootAcceptsChainsIff(lib, map[], chain);
    assert chain[..|chain|] == chain;
  }

  // --------------------------------------------------- what any recovery preserves

  lemma ChainExtends(lib: Library, log: seq<Envelope>, e: Envelope)
    requires ValidChain(lib, log) && Verified(lib, e) && e.body.previousHash == LastHash(lib, log) && Decodes(lib, e)
    ensures ValidChain(lib, log + [e]) && LastHash(lib, log + [e]) == lib.digest(e.body)
  {
    forall i | 0 <= i <= |log| ensures FollowsAt(lib, log + [e], i) {
      assert (log + [e])[..i] == log[..i];
      assert log[..|log|] == log;
      assert i < |log| ==> FollowsAt(lib, log, i);
    }
  }

  /** `later` extends `earlier` along the chain, and its registers follow its log. */
  ghost predicate Extends(lib: Library, earlier: Node, later: Node) {
    && ValidChain(lib, later.log) && earlier.log <= later.log
    && later.registers == ApplyAll(earlier.registers, Operations(lib, later.log[|earlier.log|..]))
  }

  lemma ExtendsByOne(lib: Library, node: Node, e: Envelope, later: Node)
    requires Decodes(lib, e) && Extends(lib, ApplyEvent(lib, node, e), later)
    ensures Extends(lib, node, later)
  {
    var next := ApplyEvent(lib, node, e);
    assert later.log[|node.log|] == next.log[|node.log|] == e;
    var added := later.log[|node.log|..];
    assert added[1..] == later.log[|next.log|..];
    var ops := Operations(lib, added);
    assert ops[0] == OperationOf(lib, e) && ops[1..] == Operations(lib, added[1..]);
  }

  lemma {:induction false} ScanExtends(lib: Library, node: Node, peers: seq<Envelope>, applied: nat)
    requires ValidChain(lib, node.log)
    ensures var r := Scan(lib, node, LastHash(lib, node.log), peers, applied);
            Extends(lib, node, r.0) && (r.1.Ok? ==> r.1.value == applied + |r.0.log| - |node.log|)
    decreases peers
  {
    assert Extends(lib, node, node) by {
      assert node.log[|node.log|..] == [];
    }
    if peers != [] {
      var e := peers[0];
      if !Verified(lib, e) || e.body.previousHash != LastHash(lib, node.log) {
        ScanExtends(lib, node, peers[1..], applied);
      } else if Decodes(lib, e) {
        ChainExtends(lib, node.log, e);
        var next := ApplyEvent(lib, node, e);
        ScanExtends(lib, next, peers[1..], applied + 1);
        ExtendsByOne(lib, node, e, Scan(lib, next, LastHash(lib, next.log), peers[1..], applied + 1).0);
      }
    }
  }

  /** Whatever the peers send, a recovery that starts from the node's own last hash only
      appends verified, linked events, and the registers follow the log. */
  lemma RecoveryOnlyExtends(lib: Library, node: Node, budget: int, peers: seq<Envelope>)
    requires ValidChain(lib, node.log)
    ensures var r := Recover(lib, node, budget, LastHash(lib, node.log), peers);
            Extends(lib, node, r.0) && (r.1.Ok? ==> r.1.value == |r.0.log| - |node.log|)
  {
    var start := StartOf(LastHash(lib, node.log), peers);
    ScanExtends(lib, node, [], 0);
    ScanExtends(lib, node, peers[start..], 0);
  }
}
