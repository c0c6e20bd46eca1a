/** The nonce window that keeps a signed request from being accepted twice, and how long it remembers. */
module ReplayWindow {

  const MAX_CLOCK_SKEW_SECONDS := 30
  const NONCE_TTL_SECONDS := 2 * MAX_CLOCK_SKEW_SECONDS

  datatype Request = Request(nodeId: string, nonce: string, timestamp: int, signatureValid: bool)

  datatype Verdict = Accepted | OutsideSkew | NonceUsed | BadSignature

  /** Keys in order of acceptance with their timestamps, and the timestamp under which each key is held. */
  datatype Window = Window(seen: map<string, int>, order: seq<(string, int)>)

  const EMPTY_WINDOW := Window(map[], [])

  function NonceKey(r: Request): string
  {
    r.nodeId + ":" + r.nonce
  }

  function Without(seen: map<string, int>, key: string): map<string, int>
  {
    map k | k in seen && k != key :: seen[k]
  }

  /** Drops entries from the front while they are too old; a younger front keeps everything behind it. */
  function Pruned(w: Window, now: int): Window
    decreases |w.order|
  {
    if w.order == [] || w.order[0].1 > now - NONCE_TTL_SECONDS then w
    else
      var (key, timestamp) := w.order[0];
      var seen := if key in w.seen && w.seen[key] == timestamp then Without(w.seen, key) else w.seen;
      Pruned(Window(seen, w.order[1..]), now)
  }

  function Decide(w: Window, now: int, r: Request): Verdict
  {
    if now - r.timestamp > MAX_CLOCK_SKEW_SECONDS || r.timestamp - now > MAX_CLOCK_SKEW_SECONDS then OutsideSkew
    else if NonceKey(r) in w.seen then NonceUsed
    else if !r.signatureValid then BadSignature
    else Accepted
  }

  function Remembered(w: Window, r: Request): Window
  {
    Window(w.seen[NonceKey(r) := r.timestamp], w.order + [(NonceKey(r), r.timestamp)])
  }

  function VerdictAt(w: Window, now: int, r: Request): Verdict
  {
    Decide(Pruned(w, now), now, r)
  }

  function Next(w: Window, now: int, r: Request): Window
  {
    var p := Pruned(w, now);
    if Decide(p, now, r) == Accepted then Remembered(p, r) else p
  }

  // ---------------------------------------------------------------- map and deque agree

  ghost predicate DistinctKeys(order: seq<(string, int)>)
  {
    forall i, j :: 0 <= i < j < |order| ==> order[i].0 != order[j].0
  }

  /** The deque holds each key once, and exactly the keys and timestamps of the map. */
  ghost predicate InStep(w: Window)
  {
    && DistinctKeys(w.order)
    && forall e: (string, int) :: e in w.order <==> e.0 in w.seen && w.seen[e.0] == e.1
  }

  lemma TailMembers(order: seq<(string, int)>)
    requires DistinctKeys(order) && order != []
    ensures DistinctKeys(order[1..])
    ensures forall e :: e in order[1..] <==> e in order && e.0 != order[0].0
  {
    forall e
      ensures e in order[1..] <==> e in order && e.0 != order[0].0
    {
      if e in order[1..] {
        var i :| 0 <= i < |order[1..]| && order[1..][i] == e;
        assert order[i + 1] == e;
      }
      if e in order && e.0 != order[0].0 {
        var i :| 0 <= i < |order| && order[i] == e;
        assert order[1..][i - 1] == e;
      }
    }
  }

  lemma DropFrontInStep(w: Window)
    requires InStep(w) && w.order != []
    ensures InStep(Window(Without(w.seen, w.order[0].0), w.order[1..]))
    ensures w.order[0].0 in w.seen && w.seen[w.order[0].0] == w.order[0].1
  {
    TailMembers(w.order);
    assert w.order[0] in w.order;
  }

  /** How many entries at the front are too old. */
  function OldAtFront(order: seq<(string, int)>, now: int): (n: nat)
    ensures n <= |order|
    ensures forall i :: 0 <= i < n ==> order[i].1 <= now - NONCE_TTL_SECONDS
    ensures n < |order| ==> order[n].1 > now - NONCE_TTL_SECONDS
  {
    if order == [] || order[0].1 > now - NONCE_TTL_SECONDS then 0 else 1 + OldAtFront(order[1..], now)
  }

  /** Pruning drops just those from the deque, and their keys from the map. */
  lemma {:induction false} PrunedIsSuffix(w: Window, now: int)
    requires InStep(w)
    ensures Pruned(w, now).order == w.order[OldAtFront(w.order, now)..] && InStep(Pruned(w, now))
    decreases |w.order|
  {
    if w.order != [] && w.order[0].1 <= now - NONCE_TTL_SECONDS {
      DropFrontInStep(w);
      var d := Window(Without(w.seen, w.order[0].0), w.order[1..]);
      PrunedIsSuffix(d, now);
      assert Pruned(w, now) == Pruned(d, now);
      assert d.order[OldAtFront(d.order, now)..] == w.order[OldAtFront(w.order, now)..];
    }
  }

  lemma RememberedInStep(w: Window, r: Request)
    requires InStep(w) && NonceKey(r) !in w.seen
    ensures InStep(Remembered(w, r))
  {
    var entry := (NonceKey(r), r.timestamp);
    forall i | 0 <= i < |w.order|
      ensures w.order[i].0 != entry.0
    {
      assert w.order[i] in w.order;
    }
    assert forall e :: e in w.order + [entry] <==> e in w.order || e == entry;
  }

  lemma NextInStep(w: Window, now: int, r: Request)
    requires InStep(w)
    ensures InStep(Next(w, now, r))
  {
    PrunedIsSuffix(w, now);
    if VerdictAt(w, now, r) == Accepted {
      RememberedInStep(Pruned(w, now), r);
    }
  }

  // ---------------------------------------------------------------- runs

  datatype Call = Call(now: int, request: Request)

  function WindowAfter(run: seq<Call>): Window
  {
    if run == [] then EMPTY_WINDOW
    else Next(WindowAfter(run[..|run| - 1]), run[|run| - 1].now, run[|run| - 1].request)
  }

  predicate AcceptedAt(run: seq<Call>, k: nat)
    requires k < |run|
  {
    VerdictAt(WindowAfter(run[..k]), run[k].now, run[k].request) == Accepted
  }

  ghost predicate Monotone(run: seq<Call>)
  {
    forall i, j :: 0 <= i <= j < |run| ==> run[i].now <= run[j].now
  }

  lemma {:induction false} AlwaysInStep(run: seq<Call>)
    ensures InStep(WindowAfter(run))
  {
    if run != [] {
      AlwaysInStep(run[..|run| - 1]);
      NextInStep(WindowAfter(run[..|run| - 1]), run[|run| - 1].now, run[|run| - 1].request);
    }
  }

  /** An accepted request bears a valid signature and a timestamp at most 30 seconds away. */
  lemma AcceptedIsGenuine(run: seq<Call>, k: nat)
    requires k < |run| && AcceptedAt(run, k)
    ensures run[k].request.signatureValid
    ensures run[k].request.timestamp - 30 <= run[k].now <= run[k].request.timestamp + 30
  {
    hide Pruned;
  }

  lemma WindowStep(run: seq<Call>, k: nat)
    requires k < |run|
    ensures WindowAfter(run[..k + 1]) == Next(WindowAfter(run[..k]), run[k].now, run[k].request)
  {
    assert run[..k + 1][..k] == run[..k];
  }

  /** An entry within the skew of the present is not pruned. */
  lemma {:induction false} YoungSurvives(w: Window, now: int, entry: (string, int))
    requires InStep(w) && entry in w.order && entry.1 > now - NONCE_TTL_SECONDS
    ensures entry in Pruned(w, now).order && entry.0 in Pruned(w, now).seen
  {
    PrunedIsSuffix(w, now);
    var n := OldAtFront(w.order, now);
    var i :| 0 <= i < |w.order| && w.order[i] == entry;
    assert w.order[n..][i - n] == entry;
  }

  lemma {:induction false} NextKeepsPruned(w: Window, now: int, r: Request, entry: (string, int))
    requires entry in Pruned(w, now).order
    ensures entry in Next(w, now, r).order
  {
  }

  lemma {:induction false} AcceptedIsAdded(run: seq<Call>, i: nat)
    requires i < |run| && AcceptedAt(run, i)
    ensures (NonceKey(run[i].request), run[i].request.timestamp) in WindowAfter(run[..i + 1]).order
  {
    hide Pruned, WindowAfter;
    WindowStep(run, i);
  }

  /** Once accepted, a request is remembered until its timestamp is 60 seconds old. */
  lemma {:induction false} AcceptedIsRemembered(run: seq<Call>, i: nat, j: nat)
    requires Monotone(run) && i < j <= |run| && AcceptedAt(run, i)
    requires forall k :: i <= k < j ==> run[k].now < run[i].request.timestamp + NONCE_TTL_SECONDS
    ensures (NonceKey(run[i].request), run[i].request.timestamp) in WindowAfter(run[..j]).order
  {
    hide Pruned, WindowAfter, Next, InStep, VerdictAt;
    if j == i + 1 {
      AcceptedIsAdded(run, i);
    } else {
      AcceptedIsRemembered(run, i, j - 1);
      AlwaysInStep(run[..j - 1]);
      WindowStep(run, j - 1);
      var entry := (NonceKey(run[i].request), run[i].request.timestamp);
      YoungSurvives(WindowAfter(run[..j - 1]), run[j - 1].now, entry);
      NextKeepsPruned(WindowAfter(run[..j - 1]), run[j - 1].now, run[j - 1].request, entry);
    }
  }

  /** Under a monotone clock the nonce of an accepted request is refused until its timestamp is 60 seconds old. */
  lemma NonceIsHeld(run: seq<Call>, i: nat, j: nat)
    requires Monotone(run) && i < j < |run| && AcceptedAt(run, i)
    requires run[i].request.nodeId == run[j].request.nodeId && run[i].request.nonce == run[j].request.nonce
    requires run[j].now < run[i].request.timestamp + 60
    ensures !AcceptedAt(run, j)
  {
    var entry := (NonceKey(run[i].request), run[i].request.timestamp);
    AcceptedIsRemembered(run, i, j);
    AlwaysInStep(run[..j]);
    YoungSurvives(WindowAfter(run[..j]), run[j].now, entry);
  }

  /** No request with the same node, nonce and timestamp is accepted twice. */
  lemma NoReplay(run: seq<Call>, i: nat, j: nat)
    requires Monotone(run) && i < j < |run|
    requires run[i].request.nodeId == run[j].request.nodeId && run[i].request.nonce == run[j].request.nonce
    requires run[i].request.timestamp == run[j].request.timestamp
    ensures !(AcceptedAt(run, i) && AcceptedAt(run, j))
  {
    if AcceptedAt(run, i) && AcceptedAt(run, j) {
      AcceptedIsGenuine(run, j);
      NonceIsHeld(run, i, j);
    }
  }

  // ---------------------------------------------------------------- bounded memory

  /** Which accepted call each deque entry came from, in the order of the deque. */
  ghost predicate Origins(run: seq<Call>, n: nat, order: seq<(string, int)>, from: seq<nat>)
    requires n <= |run|
  {
    && |from| == |order|
    && (forall x :: 0 <= x < |from| ==> from[x] < n && AcceptedAt(run, from[x])
                                        && order[x] == (NonceKey(run[from[x]].request), run[from[x]].request.timestamp))
    && (forall x, y :: 0 <= x < y < |from| ==> from[x] < from[y])
  }

  lemma OriginsOfSuffix(run: seq<Call>, n: nat, order: seq<(string, int)>, from: seq<nat>, d: nat)
    requires n <= |run| && Origins(run, n, order, from) && d <= |order|
    ensures Origins(run, n, order[d..], from[d..])
  {
  }

  lemma OriginsGrow(run: seq<Call>, n: nat, order: seq<(string, int)>, from: seq<nat>)
    requires n < |run| && Origins(run, n, order, from) && AcceptedAt(run, n)
    ensures Origins(run, n + 1, order + [(NonceKey(run[n].request), run[n].request.timestamp)], from + [n])
  {
  }

  lemma OriginsLater(run: seq<Call>, n: nat, order: seq<(string, int)>, from: seq<nat>)
    requires n < |run| && Origins(run, n, order, from)
    ensures Origins(run, n + 1, order, from)
  {
  }

  lemma {:induction false} NextOrder(w: Window, now: int, r: Request)
    requires InStep(w)
    ensures var kept := w.order[OldAtFront(w.order, now)..];
            Next(w, now, r).order ==
            if VerdictAt(w, now, r) == Accepted then kept + [(NonceKey(r), r.timestamp)] else kept
  {
    PrunedIsSuffix(w, now);
  }

  /** The call after the first `n` drops a prefix of the deque and may add its own entry. */
  lemma NextOrigins(run: seq<Call>, n: nat, w: Window, all: seq<nat>) returns (from: seq<nat>)
    requires n < |run| && w == WindowAfter(run[..n]) && InStep(w) && Origins(run, n, w.order, all)
    ensures Origins(run, n + 1, Next(w, run[n].now, run[n].request).order, from)
  {
    var d := OldAtFront(w.order, run[n].now);
    NextOrder(w, run[n].now, run[n].request);
    OriginsOfSuffix(run, n, w.order, all, d);
    hide Origins, Next, InStep;
    if AcceptedAt(run, n) {
      from := all[d..] + [n];
      OriginsGrow(run, n, w.order[d..], all[d..]);
    } else {
      from := all[d..];
      OriginsLater(run, n, w.order[d..], all[d..]);
    }
  }

  lemma {:induction false} EveryEntryHasOrigin(run: seq<Call>, n: nat) returns (from: seq<nat>)
    requires n <= |run|
    ensures Origins(run, n, WindowAfter(run[..n]).order, from)
  {
    if n == 0 {
      from := [];
    } else {
      var all := EveryEntryHasOrigin(run, n - 1);
      AlwaysInStep(run[..n - 1]);
      WindowStep(run, n - 1);
      hide Origins, Next, InStep;
      from := NextOrigins(run, n - 1, WindowAfter(run[..n - 1]), all);
    }
  }

  /**
   * Right after pruning, every retained entry was accepted less than 90 seconds ago: the front entry is less
   * than 60 seconds old by its own timestamp, and those behind it were accepted no earlier, sorted or not.
   */
  lemma MemoryIsBounded(run: seq<Call>, now: int) returns (from: seq<nat>)
    requires Monotone(run)
    ensures Origins(run, |run|, Pruned(WindowAfter(run), now).order, from)
    ensures forall x :: 0 <= x < |from| ==>
              now - run[from[x]].now < NONCE_TTL_SECONDS + MAX_CLOCK_SKEW_SECONDS == 90
  {
    hide Pruned, WindowAfter, VerdictAt, InStep;
    var all := EveryEntryHasOrigin(run, |run|);
    assert run[..|run|] == run;
    AlwaysInStep(run);
    var w := WindowAfter(run);
    PrunedIsSuffix(w, now);
    var d := OldAtFront(w.order, now);
    OriginsOfSuffix(run, |run|, w.order, all, d);
    from := all[d..];
    if from != [] {
      AcceptedIsGenuine(run, from[0]);
      assert Pruned(w, now).order[0] == w.order[d];
    }
  }

  /** A request is refused as a replay only if its key was accepted within the last 90 seconds. */
  lemma RefusedOnlyIfRecent(run: seq<Call>, now: int, r: Request) returns (k: nat)
    requires Monotone(run) && VerdictAt(WindowAfter(run), now, r) == NonceUsed
    ensures k < |run| && AcceptedAt(run, k) && NonceKey(run[k].request) == NonceKey(r) && now - run[k].now < 90
  {
    var from := MemoryIsBounded(run, now);
    AlwaysInStep(run);
    PrunedIsSuffix(WindowAfter(run), now);
    var p := Pruned(WindowAfter(run), now);
    var key := NonceKey(r);
    assert (key, p.seen[key]) in p.order;
    var x :| 0 <= x < |p.order| && p.order[x] == (key, p.seen[key]);
    k := from[x];
  }

  /** A genuine request in time is accepted, unless its key was accepted within the last 90 seconds. */
  lemma GenuineIsAccepted(run: seq<Call>, now: int, r: Request)
    requires Monotone(run) && r.signatureValid && r.timestamp - 30 <= now <= r.timestamp + 30
    requires forall k :: 0 <= k < |run| && AcceptedAt(run, k) && NonceKey(run[k].request) == NonceKey(r) ==>
                           90 <= now - run[k].now
    ensures VerdictAt(WindowAfter(run), now, r) == Accepted
  {
    hide Pruned, WindowAfter;
    if VerdictAt(WindowAfter(run), now, r) == NonceUsed {
      var k := RefusedOnlyIfRecent(run, now, r);
    }
  }

  /** Without a colon in their ids, two nodes never share a key. */
  lemma KeysDiffer(a: Request, b: Request)
    requires ':' !in a.nodeId && ':' !in b.nodeId
    ensures NonceKey(a) == NonceKey(b) <==> a.nodeId == b.nodeId && a.nonce == b.nonce
  {
    var x, y := NonceKey(a), NonceKey(b);
    assert x[|a.nodeId|] == ':' && y[|b.nodeId|] == ':';
    assert x[..|a.nodeId|] == a.nodeId && y[..|b.nodeId|] == b.nodeId;
    assert x[|a.nodeId| + 1..] == a.nonce && y[|b.nodeId| + 1..] == b.nonce;
  }

  /** So a genuine request in time is accepted whatever other nodes send, and under whatever other nonces. */
  lemma OthersDoNotBlock(run: seq<Call>, now: int, r: Request)
    requires Monotone(run) && r.signatureValid && r.timestamp - 30 <= now <= r.timestamp + 30
    requires ':' !in r.nodeId && forall k :: 0 <= k < |run| ==> ':' !in run[k].request.nodeId
    requires forall k :: 0 <= k < |run| ==> run[k].request.nodeId != r.nodeId || run[k].request.nonce != r.nonce
    ensures VerdictAt(WindowAfter(run), now, r) == Accepted
  {
    hide Monotone, AcceptedAt, NonceKey;
    forall k | 0 <= k < |run|
      ensures NonceKey(run[k].request) != NonceKey(r)
    {
      KeysDiffer(run[k].request, r);
    }
    GenuineIsAccepted(run, now, r);
  }

  /** The verifier object: a dictionary and a deque, changed in place. */
  class RequestVerifier {
    var seenNonceAt: map<string, int>
    var nonceOrder: seq<(string, int)>

    function Contents(): Window
      reads this
    {
      Window(seenNonceAt, nonceOrder)
    }

    constructor ()
      ensures Contents() == EMPTY_WINDOW
    {
      seenNonceAt, nonceOrder := map[], [];
    }

    method Prune(now: int)
      modifies this
      ensures Contents() == Pruned(old(Contents()), now)
    {
      var cutoff := now - NONCE_TTL_SECONDS;
      ghost var start := Contents();
      while nonceOrder != []
        invariant Pruned(Contents(), now) == Pruned(start, now)
        decreases |nonceOrder|
      {
        var (key, timestamp) := nonceOrder[0];
        if timestamp > cutoff {
          break;
        }
        nonceOrder := nonceOrder[1..];
        if key in seenNonceAt && seenNonceAt[key] == timestamp {
          seenNonceAt := Without(seenNonceAt, key);
        }
      }
    }

    method Verify(now: int, r: Request) returns (verdict: Verdict)
      modifies this
      ensures verdict == VerdictAt(old(Contents()), now, r)
      ensures Contents() == Next(old(Contents()), now, r)
    {
      Prune(now);
      if now - r.timestamp > MAX_CLOCK_SKEW_SECONDS || r.timestamp - now > MAX_CLOCK_SKEW_SECONDS {
        return OutsideSkew;
      }
      var key := NonceKey(r);
      if key in seenNonceAt {
        return NonceUsed;
      }
      if !r.signatureValid {
        return BadSignature;
      }
      seenNonceAt := seenNonceAt[key := r.timestamp];
      nonceOrder := nonceOrder + [(key, r.timestamp)];
      return Accepted;
    }
  }
}
