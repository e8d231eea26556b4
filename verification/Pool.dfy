// The client's connection pool: client/fetch/fetch.go, lines 362-497.
//
// Requests share connections by reference count. Each critical section and each close is one
// step; requests interleave between steps in any order, and connections die at any time.
module Pool {
  import opened Seqs

  type Conn = nat

  /** What a request does once it has closed a connection. */
  datatype After = ThenDial(host: string) | ThenRelease(held: Conn) | ThenDone

  /** Where one request is, with the local variables it still needs. */
  datatype Request =
    | Idle
    | Wanting(host: string)                                 // acquire: about to look the host up
    | Found(host: string, conn: Conn)                       // looked up; about to test it
    | Stale(host: string, conn: Conn)                       // found dead; about to evict it
    | Dialing(host: string)
    | Dialed(host: string, conn: Conn)                      // a connection of its own, not stored yet
    | Lost(host: string, mine: Conn, conn: Conn)            // another request stored one first
    | Got(host: string, conn: Conn)                         // getConn returned; not counted yet
    | Holding(host: string, conn: Conn)
    | Retiring(host: string, conn: Conn)                    // dispose: about to evict, still holding
    | Releasing(conn: Conn)                                 // about to release, still holding
    | Closing(conn: Conn, after: After)                     // left the critical section that retired conn
  {
    /** The connections this request counts as a user of. */
    ghost function Held(): multiset<Conn> {
      match this
      case Holding(_, c) => multiset{c}
      case Retiring(_, c) => multiset{c}
      case Releasing(c) => multiset{c}
      case Closing(_, ThenRelease(c)) => multiset{c}
      case _ => multiset{}
    }

    /** A dialed connection nobody else knows. */
    predicate Owns(c: Conn) { (Dialed? && conn == c) || (Lost? && mine == c) }
  }

  type Requests = map<nat, Request>

  // ---------- Holders ----------

  /** Every connection, as often as requests hold it. */
  ghost function Holders(requests: Requests): multiset<Conn>
    decreases requests.Keys
  {
    if requests == map[] then multiset{}
    else
      var t := Any(requests.Keys);
      requests[t].Held() + Holders(requests - {t})
  }

  lemma {:induction false} HoldersWithout(t: nat, requests: Requests)
    requires t in requests
    ensures Holders(requests) == requests[t].Held() + Holders(requests - {t})
    decreases requests.Keys
  {
    hide Request.Held;
    var u := Any(requests.Keys);
    if u != t {
      HoldersWithout(t, requests - {u});
      HoldersWithout(u, requests - {t});
      assert requests - {u} - {t} == requests - {t} - {u};
      SumSwap(requests[u].Held(), requests[t].Held(), Holders(requests - {t} - {u}));
    }
  }

  /** One request's step changes only what it holds itself. */
  lemma HoldersMove(requests: Requests, t: nat, next: Request)
    requires t in requests
    ensures forall c: Conn :: Holders(requests[t := next])[c] + requests[t].Held()[c] == Holders(requests)[c] + next.Held()[c]
    ensures forall c: Conn :: requests[t].Held()[c] <= Holders(requests)[c]
  {
    hide Request.Held;
    var now := requests[t := next];
    HoldersWithout(t, requests);
    HoldersWithout(t, now);
    assert now - {t} == requests - {t};
  }

  /** The connections some request is about to close. */
  ghost predicate BeingClosed(requests: Requests, c: Conn) {
    exists t <- requests :: requests[t].Closing? && requests[t].conn == c
  }

  ghost predicate Owned(requests: Requests, c: Conn) { exists t <- requests :: requests[t].Owns(c) }

  lemma CloserStays(requests: Requests, t: nat, next: Request, c: Conn)
    requires t in requests && BeingClosed(requests, c)
    requires !(requests[t].Closing? && requests[t].conn == c) || (next.Closing? && next.conn == c)
    ensures BeingClosed(requests[t := next], c)
  {
    var u :| u in requests && requests[u].Closing? && requests[u].conn == c;
    assert requests[t := next][u].Closing? && requests[t := next][u].conn == c;
  }

  /** A request that closes nothing takes a step. */
  lemma ClosersStay(requests: Requests, t: nat, next: Request)
    requires t in requests && !requests[t].Closing?
    ensures forall c: Conn :: BeingClosed(requests, c) ==> BeingClosed(requests[t := next], c)
    ensures next.Closing? ==> BeingClosed(requests[t := next], next.conn)
  {
    forall c: Conn | BeingClosed(requests, c) ensures BeingClosed(requests[t := next], c) { CloserStays(requests, t, next, c); }
    if next.Closing? { assert requests[t := next][t].Closing?; }
  }

  /** Owners keep what they own, except what this request gives up. */
  lemma OwnersStay(requests: Requests, t: nat, next: Request)
    requires t in requests
    ensures forall c: Conn :: Owned(requests, c) && (requests[t].Owns(c) ==> next.Owns(c)) ==> Owned(requests[t := next], c)
    ensures forall c: Conn :: next.Owns(c) ==> Owned(requests[t := next], c)
  {
    var now := requests[t := next];
    forall c: Conn | Owned(requests, c) && (requests[t].Owns(c) ==> next.Owns(c)) ensures Owned(now, c) {
      var u :| u in requests && requests[u].Owns(c);
      assert now[u].Owns(c);
    }
    forall c: Conn | next.Owns(c) ensures Owned(now, c) { assert now[t].Owns(c); }
  }

  function CountOf(inflight: map<Conn, nat>, c: Conn): nat { if c in inflight then inflight[c] else 0 }

  // ---------- The invariant, part by part ----------

  /** The pool holds only open, unretired connections, each under its own host. */
  ghost predicate Pooled(conns: map<string, Conn>, stored: map<Conn, string>, closed: set<Conn>, evicted: set<Conn>, dials: nat) {
    && (forall h <- conns :: conns[h] in stored && stored[conns[h]] == h && conns[h] !in closed && conns[h] !in evicted)
    && (forall c <- stored :: c < dials) && (forall c <- closed :: c < dials) && evicted <= stored.Keys
  }

  /** inflight is the number of holders. */
  ghost predicate Counted(inflight: map<Conn, nat>, held: multiset<Conn>) {
    (forall c: Conn :: CountOf(inflight, c) == held[c]) && (forall c <- inflight :: inflight[c] > 0)
  }

  /** Closed connections have no holder, draining ones still do, and everything retired is on its way out. */
  ghost predicate Retired(closed: set<Conn>, draining: set<Conn>, evicted: set<Conn>, held: multiset<Conn>, requests: Requests) {
    && (forall c <- closed :: held[c] == 0)
    && (forall c <- draining :: held[c] > 0 && c in evicted)
    && (forall c <- evicted :: c in closed || c in draining || BeingClosed(requests, c))
  }

  /** What a request may rely on where it is. */
  ghost predicate Sound(r: Request, conns: map<string, Conn>, stored: map<Conn, string>, closed: set<Conn>, dead: set<Conn>,
                        held: multiset<Conn>, dials: nat) {
    match r
    case Idle => true
    case Wanting(_) => true
    case Dialing(_) => true
    case Found(h, c) => c in stored && stored[c] == h
    case Stale(h, c) => c in stored && stored[c] == h && c in dead
    case Got(h, c) => c in stored && stored[c] == h
    case Holding(h, c) => c in stored && stored[c] == h
    case Retiring(h, c) => c in stored && stored[c] == h
    case Releasing(c) => c in stored
    case Dialed(_, c) => c < dials && c !in stored && c !in closed
    case Lost(h, mine, c) => mine < dials && mine !in stored && mine !in closed && c in stored && stored[c] == h
    case Closing(c, after) =>
      c in stored && (stored[c] in conns ==> conns[stored[c]] != c) && held[c] == 0 && (after.ThenRelease? ==> after.held in stored)
  }

  ghost predicate AllSound(requests: Requests, conns: map<string, Conn>, stored: map<Conn, string>, closed: set<Conn>,
                           dead: set<Conn>, held: multiset<Conn>, dials: nat) {
    forall t <- requests :: Sound(requests[t], conns, stored, closed, dead, held, dials)
  }

  ghost predicate SingleOwners(requests: Requests) {
    forall t, u, c: Conn :: t in requests && u in requests && t != u && requests[t].Owns(c) ==> !requests[u].Owns(c)
  }

  /** No connection is forgotten: one that is open and out of the pool is draining, owned, being closed, or was overwritten. */
  ghost predicate NoLeak(requests: Requests, conns: map<string, Conn>, stored: map<Conn, string>, closed: set<Conn>,
                         dropped: set<Conn>, draining: set<Conn>, dials: nat) {
    forall c: Conn :: c < dials ==> Accounted(c, requests, conns, stored, closed, dropped, draining)
  }

  predicate InPool(conns: map<string, Conn>, stored: map<Conn, string>, c: Conn) {
    c in stored && stored[c] in conns && conns[stored[c]] == c
  }

  /** The dead connection a request's next step replaces in the pool, if any. */
  function Overwritten(r: Request, conns: map<string, Conn>, dead: set<Conn>): set<Conn> {
    if r.Dialed? && r.host in conns && conns[r.host] in dead then {conns[r.host]} else {}
  }

  /** A connection that was stored is still in the pool unless it was evicted or, being dead, overwritten. */
  ghost predicate PoolExact(conns: map<string, Conn>, stored: map<Conn, string>, evicted: set<Conn>, dropped: set<Conn>,
                            dead: set<Conn>) {
    dropped <= dead && dropped <= stored.Keys &&
    forall c <- stored :: InPool(conns, stored, c) <==> c !in evicted && c !in dropped
  }

  /** A step takes a connection out of the pool without retiring it exactly when it overwrites it. */
  lemma LeftUnretired(conns: map<string, Conn>, stored: map<Conn, string>, evicted: set<Conn>, dropped: set<Conn>, dead: set<Conn>,
                      conns': map<string, Conn>, stored': map<Conn, string>, evicted': set<Conn>, dead': set<Conn>, r: Request)
    requires PoolExact(conns, stored, evicted, dropped, dead)
    requires PoolExact(conns', stored', evicted', dropped + Overwritten(r, conns, dead), dead')
    requires stored.Keys <= stored'.Keys && (Overwritten(r, conns, dead) == {} || evicted' == evicted)
    requires forall h <- conns :: conns[h] in stored && stored[conns[h]] == h
    ensures forall c <- stored ::
      InPool(conns, stored, c) && !InPool(conns', stored', c) && c !in evicted' <==> c in Overwritten(r, conns, dead)
  {
  }

  lemma ExactDie(conns: map<string, Conn>, stored: map<Conn, string>, evicted: set<Conn>, dropped: set<Conn>, dead: set<Conn>,
                 gone: Conn)
    requires PoolExact(conns, stored, evicted, dropped, dead)
    ensures PoolExact(conns, stored, evicted, dropped, dead + {gone})
  {
    hide InPool;
  }

  lemma ExactStore(conns: map<string, Conn>, stored: map<Conn, string>, evicted: set<Conn>, dropped: set<Conn>, dead: set<Conn>,
                   host: string, mine: Conn)
    requires PoolExact(conns, stored, evicted, dropped, dead) && mine !in stored && evicted <= stored.Keys
    requires forall h <- conns :: conns[h] in stored && stored[conns[h]] == h
    requires host in conns ==> conns[host] in dead
    ensures PoolExact(conns[host := mine], stored[mine := host], evicted,
                      dropped + Overwritten(Dialed(host, mine), conns, dead), dead)
  {
  }

  // ---------- What the invariant's parts give and need ----------

  /** What a request owns has never been pooled or closed. */
  ghost predicate OwnedApart(requests: Requests, stored: map<Conn, string>, closed: set<Conn>, dials: nat) {
    forall t, c: Conn :: t in requests && requests[t].Owns(c) ==> c !in stored && c !in closed && c < dials
  }

  lemma OwnedOutside(requests: Requests, conns: map<string, Conn>, stored: map<Conn, string>, closed: set<Conn>,
                     dead: set<Conn>, held: multiset<Conn>, dials: nat)
    requires AllSound(requests, conns, stored, closed, dead, held, dials)
    ensures OwnedApart(requests, stored, closed, dials)
  {
    forall t, c: Conn | t in requests && requests[t].Owns(c) ensures c !in stored && c !in closed && c < dials {
      assert Sound(requests[t], conns, stored, closed, dead, held, dials);
    }
  }

  /** A connection being closed has left the pool and has no holder. */
  ghost predicate Gone(c: Conn, conns: map<string, Conn>, stored: map<Conn, string>, held: multiset<Conn>) {
    c in stored && (stored[c] in conns ==> conns[stored[c]] != c) && held[c] == 0
  }

  lemma ClosingGone(requests: Requests, conns: map<string, Conn>, stored: map<Conn, string>, closed: set<Conn>,
                    dead: set<Conn>, held: multiset<Conn>, dials: nat)
    requires AllSound(requests, conns, stored, closed, dead, held, dials)
    ensures forall t <- requests :: requests[t].Closing? ==> Gone(requests[t].conn, conns, stored, held)
  {
    forall t <- requests ensures requests[t].Closing? ==> Gone(requests[t].conn, conns, stored, held) {
      assert Sound(requests[t], conns, stored, closed, dead, held, dials);
    }
  }

  /** After a step of t the other requests may still rely on what they did. */
  lemma AllSoundStep(requests: Requests, t: nat, next: Request,
                     conns: map<string, Conn>, stored: map<Conn, string>, closed: set<Conn>, dead: set<Conn>,
                     held: multiset<Conn>, dials: nat,
                     conns': map<string, Conn>, stored': map<Conn, string>, closed': set<Conn>, dead': set<Conn>,
                     held': multiset<Conn>, dials': nat)
    requires t in requests && AllSound(requests, conns, stored, closed, dead, held, dials)
    requires Sound(next, conns', stored', closed', dead', held', dials')
    requires (forall c <- stored :: c in stored' && stored'[c] == stored[c]) && dead <= dead' && dials <= dials'
    requires forall u, c: Conn :: u in requests && u != t && requests[u].Owns(c) ==> c !in stored' && c !in closed'
    requires forall u <- requests :: u != t && requests[u].Closing? ==> Gone(requests[u].conn, conns', stored', held')
    ensures AllSound(requests[t := next], conns', stored', closed', dead', held', dials')
  {
    var now := requests[t := next];
    forall u <- now ensures Sound(now[u], conns', stored', closed', dead', held', dials') {
      if u != t {
        var r := requests[u];
        assert Sound(r, conns, stored, closed, dead, held, dials);
        assert r.Dialed? ==> r.Owns(r.conn);
        assert r.Lost? ==> r.Owns(r.mine);
        assert r.Closing? ==> Gone(r.conn, conns', stored', held');
      }
    }
  }

  lemma SoundAt(requests: Requests, t: nat, conns: map<string, Conn>, stored: map<Conn, string>, closed: set<Conn>,
                dead: set<Conn>, held: multiset<Conn>, dials: nat)
    requires AllSound(requests, conns, stored, closed, dead, held, dials) && t in requests
    ensures Sound(requests[t], conns, stored, closed, dead, held, dials)
  {
  }

  lemma SameHeld(requests: Requests, t: nat, next: Request)
    requires t in requests
    ensures next.Held() == requests[t].Held() ==> Holders(requests[t := next]) == Holders(requests)
  {
    hide Request.Held;
    HoldersMove(requests, t, next);
    hide Holders;
  }

  lemma OwnersStep(requests: Requests, t: nat, next: Request)
    requires t in requests && SingleOwners(requests)
    requires forall c: Conn :: next.Owns(c) ==> requests[t].Owns(c) || forall u <- requests :: !requests[u].Owns(c)
    ensures SingleOwners(requests[t := next])
  {
  }

  /** The ways a connection is accounted for. */
  ghost predicate Accounted(c: Conn, requests: Requests, conns: map<string, Conn>, stored: map<Conn, string>,
                            closed: set<Conn>, dropped: set<Conn>, draining: set<Conn>) {
    c in dropped || c in closed || c in draining || InPool(conns, stored, c) || Owned(requests, c) || BeingClosed(requests, c)
  }

  lemma HolderStored(requests: Requests, conns: map<string, Conn>, stored: map<Conn, string>, closed: set<Conn>,
                     dead: set<Conn>, held: multiset<Conn>, dials: nat)
    requires AllSound(requests, conns, stored, closed, dead, held, dials)
    ensures forall c: Conn :: Holders(requests)[c] > 0 ==> c in stored
  {
    forall c: Conn | Holders(requests)[c] > 0 ensures c in stored {
      HolderExists(requests, c);
      var t :| t in requests && requests[t].Held()[c] > 0;
      assert Sound(requests[t], conns, stored, closed, dead, held, dials);
    }
  }

  lemma {:induction false} HolderExists(requests: Requests, c: Conn)
    requires Holders(requests)[c] > 0
    ensures exists t <- requests :: requests[t].Held()[c] > 0
    decreases requests.Keys
  {
    hide Request.Held;
    var t := Any(requests.Keys);
    if requests[t].Held()[c] == 0 {
      HolderExists(requests - {t}, c);
      var u :| u in requests - {t} && (requests - {t})[u].Held()[c] > 0;
      assert requests[u].Held()[c] > 0;
    }
  }

  // ---------- One part of the invariant after one kind of step ----------

  lemma PooledStore(conns: map<string, Conn>, stored: map<Conn, string>, closed: set<Conn>, evicted: set<Conn>, dials: nat,
                    host: string, mine: Conn)
    requires Pooled(conns, stored, closed, evicted, dials) && mine !in stored && mine !in closed && mine < dials
    ensures Pooled(conns[host := mine], stored[mine := host], closed, evicted, dials)
  {
  }

  lemma PooledEvict(conns: map<string, Conn>, stored: map<Conn, string>, closed: set<Conn>, evicted: set<Conn>, dials: nat,
                    host: string, conn: Conn, left: map<string, Conn>)
    requires Pooled(conns, stored, closed, evicted, dials) && conn in stored && stored[conn] == host
    requires left == if host in conns && conns[host] == conn then conns - {host} else conns
    ensures Pooled(left, stored, closed, evicted + {conn}, dials)
  {
  }

  lemma PooledClose(conns: map<string, Conn>, stored: map<Conn, string>, closed: set<Conn>, evicted: set<Conn>, dials: nat,
                    conn: Conn)
    requires Pooled(conns, stored, closed, evicted, dials) && conn < dials
    requires conn in stored ==> stored[conn] in conns ==> conns[stored[conn]] != conn
    ensures Pooled(conns, stored, closed + {conn}, evicted, dials)
  {
  }

  lemma CountIs(inflight: map<Conn, nat>, held: multiset<Conn>, conn: Conn)
    requires Counted(inflight, held)
    ensures CountOf(inflight, conn) == held[conn]
  {
  }

  lemma CountedDown(inflight: map<Conn, nat>, held: multiset<Conn>, conn: Conn, left: multiset<Conn>)
    requires Counted(inflight, held) && held[conn] > 0
    requires forall c: Conn :: held[c] == left[c] + if c == conn then 1 else 0
    ensures Counted(if left[conn] == 0 then inflight - {conn} else inflight[conn := left[conn]], left)
  {
  }

  lemma CountedUp(inflight: map<Conn, nat>, held: multiset<Conn>, conn: Conn, now: multiset<Conn>)
    requires Counted(inflight, held)
    requires forall c: Conn :: now[c] == held[c] + if c == conn then 1 else 0
    ensures Counted(inflight[conn := CountOf(inflight, conn) + 1], now)
  {
  }

  lemma RetiredStep(closed: set<Conn>, draining: set<Conn>, evicted: set<Conn>, held: multiset<Conn>, requests: Requests,
                    closed': set<Conn>, draining': set<Conn>, evicted': set<Conn>, held': multiset<Conn>, now: Requests)
    requires Retired(closed, draining, evicted, held, requests)
    requires forall c <- closed' :: held'[c] == 0
    requires forall c <- draining' :: held'[c] > 0 && c in evicted'
    requires closed <= closed' && forall c: Conn :: BeingClosed(requests, c) ==> BeingClosed(now, c) || c in closed'
    requires forall c <- draining :: c in draining' || BeingClosed(now, c)
    requires forall c <- evicted' :: c in evicted || c in draining' || BeingClosed(now, c)
    ensures Retired(closed', draining', evicted', held', now)
  {
    hide BeingClosed;
  }

  lemma RetiredHolds(closed: set<Conn>, draining: set<Conn>, evicted: set<Conn>, held: multiset<Conn>, requests: Requests)
    requires Retired(closed, draining, evicted, held, requests)
    ensures (forall c <- closed :: held[c] == 0) && forall c <- draining :: held[c] > 0 && c in evicted
  {
  }

  lemma PooledHolds(conns: map<string, Conn>, stored: map<Conn, string>, closed: set<Conn>, evicted: set<Conn>, dials: nat)
    requires Pooled(conns, stored, closed, evicted, dials)
    ensures forall h <- conns :: conns[h] in stored && stored[conns[h]] == h && conns[h] !in closed && conns[h] !in evicted
    ensures (forall c <- stored :: c < dials) && forall c <- closed :: c < dials
  {
  }

  /** The next connection number is the one just dialed, still owned. */
  lemma OneMore(requests: Requests, conns: map<string, Conn>, stored: map<Conn, string>, closed: set<Conn>, dropped: set<Conn>,
                draining: set<Conn>, evicted: set<Conn>, dials: nat)
    requires NoLeak(requests, conns, stored, closed, dropped, draining, dials) && Owned(requests, dials)
    ensures NoLeak(requests, conns, stored, closed, dropped, draining, dials + 1)
    ensures Pooled(conns, stored, closed, evicted, dials) ==> Pooled(conns, stored, closed, evicted, dials + 1)
  {
    hide Owned;
    hide BeingClosed;
    hide InPool;
    forall c: Conn | c < dials + 1 ensures Accounted(c, requests, conns, stored, closed, dropped, draining) {
      if c < dials { assert Accounted(c, requests, conns, stored, closed, dropped, draining); }
    }
  }

  lemma LeakStep(requests: Requests, conns: map<string, Conn>, stored: map<Conn, string>, closed: set<Conn>, dropped: set<Conn>,
                 draining: set<Conn>, dials: nat,
                 now: Requests, conns': map<string, Conn>, stored': map<Conn, string>, closed': set<Conn>, dropped': set<Conn>,
                 draining': set<Conn>)
    requires NoLeak(requests, conns, stored, closed, dropped, draining, dials) && dropped <= dropped' && closed <= closed'
    requires forall c <- draining :: c in draining' || BeingClosed(now, c)
    requires forall c <- stored :: InPool(conns, stored, c) ==>
      c in dropped' || c in draining' || BeingClosed(now, c) || InPool(conns', stored', c)
    requires forall c: Conn :: Owned(requests, c) ==> Owned(now, c) || c in closed' || InPool(conns', stored', c)
    requires forall c: Conn :: BeingClosed(requests, c) ==> BeingClosed(now, c) || c in closed'
    ensures NoLeak(now, conns', stored', closed', dropped', draining', dials)
  {
    hide Owned;
    hide BeingClosed;
    forall c: Conn | c < dials ensures Accounted(c, now, conns', stored', closed', dropped', draining') {
      assert Accounted(c, requests, conns, stored, closed, dropped, draining);
    }
  }

  /** The facts about the other requests that every step starts from. */
  lemma Facts(requests: Requests, t: nat, next: Request, conns: map<string, Conn>, stored: map<Conn, string>,
              closed: set<Conn>, dead: set<Conn>, dials: nat)
    requires AllSound(requests, conns, stored, closed, dead, Holders(requests), dials) && t in requests
    ensures forall c: Conn :: Holders(requests[t := next])[c] + requests[t].Held()[c] == Holders(requests)[c] + next.Held()[c]
    ensures forall c: Conn :: requests[t].Held()[c] <= Holders(requests)[c]
    ensures next.Held() == requests[t].Held() ==> Holders(requests[t := next]) == Holders(requests)
    ensures OwnedApart(requests, stored, closed, dials)
    ensures forall u <- requests :: requests[u].Closing? ==> Gone(requests[u].conn, conns, stored, Holders(requests))
    ensures forall c: Conn :: Holders(requests)[c] > 0 ==> c in stored
    ensures !requests[t].Closing? ==> forall c: Conn :: BeingClosed(requests, c) ==> BeingClosed(requests[t := next], c)
    ensures !requests[t].Closing? && next.Closing? ==> BeingClosed(requests[t := next], next.conn)
    ensures forall c: Conn :: Owned(requests, c) && (requests[t].Owns(c) ==> next.Owns(c)) ==> Owned(requests[t := next], c)
    ensures forall c: Conn :: next.Owns(c) ==> Owned(requests[t := next], c)
    ensures Sound(requests[t], conns, stored, closed, dead, Holders(requests), dials)
  {
    hide AllSound;
    hide Sound;
    hide Gone;
    hide OwnedApart;
    hide Request.Held;
    hide Request.Owns;
    hide Owned;
    hide BeingClosed;
    hide Holders;
    SoundAt(requests, t, conns, stored, closed, dead, Holders(requests), dials);
    SameHeld(requests, t, next);
    HoldersMove(requests, t, next);
    OwnedOutside(requests, conns, stored, closed, dead, Holders(requests), dials);
    ClosingGone(requests, conns, stored, closed, dead, Holders(requests), dials);
    HolderStored(requests, conns, stored, closed, dead, Holders(requests), dials);
    OwnersStay(requests, t, next);
    if !requests[t].Closing? { ClosersStay(requests, t, next); }
  }

  /** The whole invariant, on values. */
  ghost predicate Inv(requests: Requests, conns: map<string, Conn>, inflight: map<Conn, nat>, stored: map<Conn, string>,
                      closed: set<Conn>, dead: set<Conn>, draining: set<Conn>, evicted: set<Conn>, dials: nat,
                      dropped: set<Conn>) {
    && Pooled(conns, stored, closed, evicted, dials)
    && Counted(inflight, Holders(requests))
    && Retired(closed, draining, evicted, Holders(requests), requests)
    && AllSound(requests, conns, stored, closed, dead, Holders(requests), dials)
    && SingleOwners(requests)
    && NoLeak(requests, conns, stored, closed, dropped, draining, dials)
  }

  lemma NothingYet(requests: Requests)
    requires (forall t <- requests :: requests[t] == Idle) && Holders(requests) == multiset{}
    ensures Inv(requests, map[], map[], map[], {}, {}, {}, {}, 0, {})
  {
    hide Holders;
    assert Counted(map[], multiset{});
    assert SingleOwners(requests);
    assert forall t <- requests :: !requests[t].Closing?;
  }

  lemma AllIdle(requests: Requests)
    requires forall t <- requests :: requests[t] == Idle
    ensures Holders(requests) == multiset{}
    decreases requests.Keys
  {
    if requests != map[] { AllIdle(requests - {Any(requests.Keys)}); }
  }

  /** What evict changes; idle says that nobody holds conn. */
  predicate Evicted(conns: map<string, Conn>, draining: set<Conn>, evicted: set<Conn>,
                    conns': map<string, Conn>, draining': set<Conn>, evicted': set<Conn>, host: string, conn: Conn, idle: bool) {
    && conns' == (if host in conns && conns[host] == conn then conns - {host} else conns)
    && draining' == (if idle then draining else draining + {conn})
    && evicted' == evicted + {conn}
  }

  /** What acquire's count changes. */
  predicate Counts(requests: Requests, inflight: map<Conn, nat>, requests': Requests, inflight': map<Conn, nat>, t: nat)
    requires t in requests && requests[t].Got?
  {
    var r := requests[t];
    requests' == requests[t := Holding(r.host, r.conn)] && inflight' == inflight[r.conn := CountOf(inflight, r.conn) + 1]
  }

  class Client {
    var conns: map<string, Conn>
    var inflight: map<Conn, nat>
    var draining: set<Conn>
    /** Connections dialed so far are numbered below dials. */
    var dials: nat
    var dead: set<Conn>
    var closed: set<Conn>
    var requests: Requests
    /** Connections that were ever pooled, with their host; those evict has retired, and those overwritten in the pool. */
    ghost var stored: map<Conn, string>
    ghost var evicted: set<Conn>
    ghost var dropped: set<Conn>

    ghost predicate Valid()
      reads this
    {
      Inv(requests, conns, inflight, stored, closed, dead, draining, evicted, dials, dropped) &&
      PoolExact(conns, stored, evicted, dropped, dead)
    }

    constructor (users: set<nat>)
      ensures Valid() && requests == map t | t in users :: Idle
      ensures conns == map[] && inflight == map[] && draining == closed == dead == evicted == {} && dials == 0
    {
      conns, inflight, draining, dials, dead, closed := map[], map[], {}, 0, {}, {};
      requests := map t | t in users :: Idle;
      stored, evicted, dropped := map[], {}, {};
      new;
      AllIdle(requests);
      NothingYet(requests);
    }

    lemma SoundHere(t: nat)
      requires Valid() && t in requests
      ensures Sound(requests[t], conns, stored, closed, dead, Holders(requests), dials)
      ensures forall h <- conns :: conns[h] in stored && stored[conns[h]] == h
    {
      hide Holders;
      hide Sound;
    }

    lemma Apart()
      requires Valid()
      ensures PoolExact(conns, stored, evicted, dropped, dead)
      ensures forall h <- conns :: conns[h] in stored && stored[conns[h]] == h
    {
      hide Holders;
    }

    lemma OwnedHere(t: nat)
      requires Valid() && t in requests && requests[t].Dialed?
      ensures requests[t].conn !in stored && evicted <= stored.Keys
      ensures PoolExact(conns, stored, evicted, dropped, dead)
      ensures forall h <- conns :: conns[h] in stored && stored[conns[h]] == h
    {
      hide Holders;
      hide PoolExact;
      SoundHere(t);
    }

    lemma CountHere(t: nat, c: Conn)
      requires Valid() && t in requests
      ensures CountOf(inflight, c) == Holders(requests)[c] >= requests[t].Held()[c]
    {
      hide Holders;
      hide Pooled;
      hide Retired;
      hide AllSound;
      hide SingleOwners;
      hide NoLeak;
      HoldersMove(requests, t, Idle);
    }

    /** A step that moves one request on and touches nothing else. */
    method Move(t: nat, next: Request)
      requires Valid() && t in requests && Sound(next, conns, stored, closed, dead, Holders(requests), dials)
      requires next.Held() == requests[t].Held() && !requests[t].Closing? && !next.Closing?
      requires forall c: Conn :: requests[t].Owns(c) == next.Owns(c)
      modifies `requests
      ensures Valid() && requests == old(requests)[t := next]
    {
      hide Holders;
      hide Sound;
      hide BeingClosed;
      hide Owned;
      hide Pooled;
      hide Counted;
      hide Retired;
      hide NoLeak;
      Facts(requests, t, next, conns, stored, closed, dead, dials);
      AllSoundStep(requests, t, next, conns, stored, closed, dead, Holders(requests), dials,
                   conns, stored, closed, dead, Holders(requests), dials);
      OwnersStep(requests, t, next);
      RetiredHolds(closed, draining, evicted, Holders(requests), requests);
      RetiredStep(closed, draining, evicted, Holders(requests), requests,
                  closed, draining, evicted, Holders(requests), requests[t := next]);
      LeakStep(requests, conns, stored, closed, dropped, draining, dials, requests[t := next], conns, stored, closed, dropped, draining);
      hide AllSound;
      hide SingleOwners;
      requests := requests[t := next];
    }

    // ---------- getConn ----------

    /** acquire begins: any request may want any host. */
    method Want(t: nat, host: string)
      requires Valid() && t in requests && requests[t].Idle?
      modifies `requests
      ensures Valid() && requests == old(requests)[t := Wanting(host)]
    {
      SoundHere(t);
      hide Inv;
      hide Holders;
      Move(t, Wanting(host));
    }

    /** The lookup under the lock. */
    method Lookup(t: nat)
      requires Valid() && t in requests && requests[t].Wanting?
      modifies `requests
      ensures Valid()
      ensures var host := old(requests)[t].host;
        requests == old(requests)[t := if host in conns then Found(host, conns[host]) else Dialing(host)]
    {
      SoundHere(t);
      hide Inv;
      hide Holders;
      var host := requests[t].host;
      Move(t, if host in conns then Found(host, conns[host]) else Dialing(host));
    }

    /** The liveness test outside the lock. */
    method TestFound(t: nat)
      requires Valid() && t in requests && requests[t].Found?
      modifies `requests
      ensures Valid()
      ensures var r := old(requests)[t];
        requests == old(requests)[t := if r.conn in dead then Stale(r.host, r.conn) else Got(r.host, r.conn)]
    {
      SoundHere(t);
      hide Inv;
      hide Holders;
      var r := requests[t];
      Move(t, if r.conn in dead then Stale(r.host, r.conn) else Got(r.host, r.conn));
    }

    /** A dial fails, or gives a connection only this request knows. */
    method Dial(t: nat, failed: bool)
      requires Valid() && t in requests && requests[t].Dialing?
      modifies `requests, `dials
      ensures Valid() && dials == old(dials) + if failed then 0 else 1
      ensures requests == old(requests)[t := if failed then Idle else Dialed(old(requests)[t].host, old(dials))]
    {
      if failed { Move(t, Idle); } else { DialUp(t); }
    }

    method DialUp(t: nat)
      requires Valid() && t in requests && requests[t].Dialing?
      modifies `requests, `dials
      ensures Valid() && dials == old(dials) + 1
      ensures requests == old(requests)[t := Dialed(old(requests)[t].host, old(dials))]
    {
      hide Holders;
      hide BeingClosed;
      hide Owned;
      hide Pooled;
      hide Counted;
      hide Retired;
      hide NoLeak;
      var next := Dialed(requests[t].host, dials);
      Facts(requests, t, next, conns, stored, closed, dead, dials);
      PooledHolds(conns, stored, closed, evicted, dials);
      AllSoundStep(requests, t, next, conns, stored, closed, dead, Holders(requests), dials,
                   conns, stored, closed, dead, Holders(requests), dials + 1);
      OwnersStep(requests, t, next);
      RetiredHolds(closed, draining, evicted, Holders(requests), requests);
      RetiredStep(closed, draining, evicted, Holders(requests), requests,
                  closed, draining, evicted, Holders(requests), requests[t := next]);
      LeakStep(requests, conns, stored, closed, dropped, draining, dials, requests[t := next], conns, stored, closed, dropped, draining);
      assert next.Owns(dials);
      OneMore(requests[t := next], conns, stored, closed, dropped, draining, evicted, dials);
      hide AllSound;
      hide SingleOwners;
      hide Sound;
      requests := requests[t := next];
      dials := dials + 1;
    }

    /** Stores the dialed connection, unless another request stored a live one first. */
    method Store(t: nat)
      requires Valid() && t in requests && requests[t].Dialed?
      modifies `requests, `conns, `stored, `dropped
      ensures Valid() && old(stored.Keys) <= stored.Keys
      ensures dropped == old(dropped) + Overwritten(old(requests)[t], old(conns), dead)
      ensures var host, mine := old(requests)[t].host, old(requests)[t].conn;
        if host in old(conns) && old(conns)[host] !in dead
        then conns == old(conns) && requests == old(requests)[t := Lost(host, mine, conns[host])]
        else conns == old(conns)[host := mine] && requests == old(requests)[t := Got(host, mine)]
    {
      SoundHere(t);
      hide Inv;
      hide Holders;
      var host, mine := requests[t].host, requests[t].conn;
      if host in conns && conns[host] !in dead {
        Move(t, Lost(host, mine, conns[host]));
      } else {
        StoreOwn(t);
      }
    }

    /** A dead connection that is replaced just leaves the pool. */
    method StoreOwn(t: nat)
      requires Valid() && t in requests && requests[t].Dialed?
      requires requests[t].host in conns ==> conns[requests[t].host] in dead
      modifies `requests, `conns, `stored, `dropped
      ensures Valid() && old(stored.Keys) <= stored.Keys
      ensures dropped == old(dropped) + Overwritten(old(requests)[t], old(conns), dead)
      ensures var host, mine := old(requests)[t].host, old(requests)[t].conn;
        conns == old(conns)[host := mine] && requests == old(requests)[t := Got(host, mine)]
    {
      OwnedHere(t);
      hide Inv;
      hide Holders;
      hide PoolExact;
      hide InPool;
      var host, mine := requests[t].host, requests[t].conn;
      StoreKeeps(requests, conns, inflight, stored, closed, dead, draining, evicted, dials, dropped, t);
      ExactStore(conns, stored, evicted, dropped, dead, host, mine);
      dropped := dropped + Overwritten(requests[t], conns, dead);
      conns, stored := conns[host := mine], stored[mine := host];
      requests := requests[t := Got(host, mine)];
    }

    /** Closes the connection that lost the race and uses the stored one. */
    method CloseLost(t: nat)
      requires Valid() && t in requests && requests[t].Lost?
      modifies `requests, `closed, `dead
      ensures Valid()
      ensures var r := old(requests)[t];
        closed == old(closed) + {r.mine} && dead == old(dead) + {r.mine} &&
        requests == old(requests)[t := Got(r.host, r.conn)] && old(Holders(requests))[r.mine] == 0
    {
      Apart();
      hide Inv;
      hide Holders;
      hide PoolExact;
      var r := requests[t];
      LoseKeeps(requests, conns, inflight, stored, closed, dead, draining, evicted, dials, dropped, t);
      ExactDie(conns, stored, evicted, dropped, dead, r.mine);
      closed, dead := closed + {r.mine}, dead + {r.mine};
      requests := requests[t := Got(r.host, r.conn)];
    }

    /** Evicts a connection found dead; closes it now if nobody holds it. */
    method EvictStale(t: nat)
      requires Valid() && t in requests && requests[t].Stale?
      modifies `requests, `conns, `draining, `evicted
      ensures Valid()
      ensures var r := old(requests)[t]; var idle := CountOf(inflight, r.conn) == 0;
        Evicted(old(conns), old(draining), old(evicted), conns, draining, evicted, r.host, r.conn, idle) &&
        requests == old(requests)[t := if idle then Closing(r.conn, ThenDial(r.host)) else Dialing(r.host)]
    {
      SoundHere(t);
      hide Inv;
      hide Holders;
      var host, conn := requests[t].host, requests[t].conn;
      Evict(t, host, conn, Closing(conn, ThenDial(host)), Dialing(host));
    }

    /** evict's critical section: ifIdle is where the request goes when nobody holds conn. */
    method Evict(t: nat, host: string, conn: Conn, ifIdle: Request, ifHeld: Request)
      requires Valid() && t in requests && conn in stored && stored[conn] == host
      requires ifIdle.Closing? && ifIdle.conn == conn && (ifIdle.after.ThenRelease? ==> ifIdle.after.held in stored)
      requires !ifHeld.Closing? && Sound(ifHeld, conns, stored, closed, dead, Holders(requests), dials)
      requires ifIdle.Held() == requests[t].Held() == ifHeld.Held() && !requests[t].Closing?
      requires forall c: Conn :: !requests[t].Owns(c) && !ifHeld.Owns(c)
      modifies `requests, `conns, `draining, `evicted
      ensures Valid()
      ensures var idle := CountOf(inflight, conn) == 0;
        Evicted(old(conns), old(draining), old(evicted), conns, draining, evicted, host, conn, idle) &&
        requests == old(requests)[t := if idle then ifIdle else ifHeld]
    {
      hide Inv;
      hide Sound;
      hide Holders;
      var idle := CountOf(inflight, conn) <= 0;
      var next := if idle then ifIdle else ifHeld;
      var left := if host in conns && conns[host] == conn then conns - {host} else conns;
      EvictKeeps(requests, conns, inflight, stored, closed, dead, draining, evicted, dials, dropped, t, host, conn, next, left);
      conns := left;
      if !idle { draining := draining + {conn}; }
      evicted := evicted + {conn};
      requests := requests[t := next];
    }

    // ---------- acquire, dispose and release ----------

    /** Counts the request as a user if the connection is still the pool's; otherwise it looks again, unless it was cancelled. */
    method Count(t: nat, cancelled: bool)
      requires Valid() && t in requests && requests[t].Got?
      modifies `requests, `inflight
      ensures Valid()
      ensures var r := old(requests)[t];
        if r.host in conns && conns[r.host] == r.conn && r.conn !in draining
        then Counts(old(requests), old(inflight), requests, inflight, t) && r.conn !in evicted && r.conn !in closed
        else inflight == old(inflight) && requests == old(requests)[t := if cancelled then Idle else Wanting(r.host)]
    {
      SoundHere(t);
      hide Inv;
      hide Holders;
      var host, conn := requests[t].host, requests[t].conn;
      if host in conns && conns[host] == conn && conn !in draining {
        CountUp(t);
      } else {
        Move(t, if cancelled then Idle else Wanting(host));
      }
    }

    method CountUp(t: nat)
      requires Valid() && t in requests && requests[t].Got?
      requires requests[t].host in conns && conns[requests[t].host] == requests[t].conn
      modifies `requests, `inflight
      ensures Valid() && Counts(old(requests), old(inflight), requests, inflight, t)
      ensures old(requests)[t].conn !in evicted && old(requests)[t].conn !in closed
    {
      hide Inv;
      hide Holders;
      var host, conn := requests[t].host, requests[t].conn;
      CountKeeps(requests, conns, inflight, stored, closed, dead, draining, evicted, dials, dropped, t);
      inflight := inflight[conn := CountOf(inflight, conn) + 1];
      requests := requests[t := Holding(host, conn)];
    }

    lemma HoldingHere(t: nat, failed: bool)
      requires Valid() && t in requests && requests[t].Holding?
      ensures var r := requests[t];
        var next := if failed then Retiring(r.host, r.conn) else Releasing(r.conn);
        Sound(next, conns, stored, closed, dead, Holders(requests), dials) &&
        next.Held() == r.Held() && forall c: Conn :: r.Owns(c) == next.Owns(c)
    {
      hide Holders;
      hide Inv;
      hide PoolExact;
      SoundHere(t);
    }

    /** The call is over: a failed connection is evicted first, then the use is released. */
    method Dispose(t: nat, failed: bool)
      requires Valid() && t in requests && requests[t].Holding?
      modifies `requests
      ensures Valid()
      ensures var r := old(requests)[t];
        requests == old(requests)[t := if failed then Retiring(r.host, r.conn) else Releasing(r.conn)]
    {
      HoldingHere(t, failed);
      hide Inv;
      hide Holders;
      hide PoolExact;
      hide Sound;
      hide Request.Held;
      hide Request.Owns;
      var r := requests[t];
      Move(t, if failed then Retiring(r.host, r.conn) else Releasing(r.conn));
    }

    lemma RetiringHere(t: nat)
      requires Valid() && t in requests && requests[t].Retiring?
      ensures var r := requests[t];
        r.conn in stored && stored[r.conn] == r.host &&
        Sound(Releasing(r.conn), conns, stored, closed, dead, Holders(requests), dials) &&
        Closing(r.conn, ThenRelease(r.conn)).Held() == r.Held() == Releasing(r.conn).Held() &&
        CountOf(inflight, r.conn) > 0 && forall c: Conn :: !r.Owns(c) && !Releasing(r.conn).Owns(c)
    {
      hide Holders;
      hide Inv;
      hide PoolExact;
      SoundHere(t);
      CountHere(t, requests[t].conn);
    }

    method EvictHeld(t: nat)
      requires Valid() && t in requests && requests[t].Retiring?
      modifies `requests, `conns, `draining, `evicted
      ensures Valid()
      ensures var r := old(requests)[t];
        Evicted(old(conns), old(draining), old(evicted), conns, draining, evicted, r.host, r.conn, false) &&
        requests == old(requests)[t := Releasing(r.conn)]
    {
      RetiringHere(t);
      hide Inv;
      hide Sound;
      hide Holders;
      hide Evicted;
      hide PoolExact;
      hide Request.Held;
      hide Request.Owns;
      var host, conn := requests[t].host, requests[t].conn;
      Evict(t, host, conn, Closing(conn, ThenRelease(conn)), Releasing(conn));
    }

    /** Ends one use; the last use of a retired connection goes on to close it. */
    method Release(t: nat)
      requires Valid() && t in requests && requests[t].Releasing?
      modifies `requests, `inflight, `draining
      ensures Valid()
      ensures var conn := old(requests)[t].conn; var left := Holders(requests)[conn];
        left + 1 == old(Holders(requests))[conn] &&
        inflight == (if left == 0 then old(inflight) - {conn} else old(inflight)[conn := left]) &&
        if left == 0 && conn in old(draining)
        then requests == old(requests)[t := Closing(conn, ThenDone)] && draining == old(draining) - {conn}
        else requests == old(requests)[t := Idle] && draining == old(draining)
    {
      hide Inv;
      hide Holders;
      var conn := requests[t].conn;
      CountHere(t, conn);
      ReleaseKeeps(requests, conns, inflight, stored, closed, dead, draining, evicted, dials, dropped, t);
      var left: int := CountOf(inflight, conn) - 1;
      var idle := left <= 0;
      inflight := if idle then inflight - {conn} else inflight[conn := left];
      var closing := idle && conn in draining;
      if closing { draining := draining - {conn}; }
      requests := requests[t := if closing then Closing(conn, ThenDone) else Idle];
    }

    /** closeConn, after the lock is given up. */
    method FinishClose(t: nat)
      requires Valid() && t in requests && requests[t].Closing?
      modifies `requests, `closed, `dead
      ensures Valid()
      ensures var r := old(requests)[t];
        closed == old(closed) + {r.conn} && dead == old(dead) + {r.conn} &&
        requests == old(requests)[t := AfterClose(r.after)] && old(Holders(requests))[r.conn] == 0
    {
      hide Inv;
      hide Holders;
      var conn, next := requests[t].conn, AfterClose(requests[t].after);
      CloseKeeps(requests, conns, inflight, stored, closed, dead, draining, evicted, dials, dropped, t, next);
      closed, dead := closed + {conn}, dead + {conn};
      requests := requests[t := next];
    }

    /** A connection dies, whoever holds it. */
    method Die(gone: Conn)
      requires Valid()
      modifies `dead
      ensures Valid() && dead == old(dead) + {gone}
    {
      hide Holders;
      hide BeingClosed;
      hide Owned;
      hide Pooled;
      hide Counted;
      hide Retired;
      hide NoLeak;
      LeakStep(requests, conns, stored, closed, dropped, draining, dials, requests, conns, stored, closed, dropped, draining);
      hide AllSound;
      dead := dead + {gone};
    }

    /** Any request's next step: host is what it asks for, failed how its dial, its wait or its call ends. */
    method Step(t: nat, host: string, failed: bool)
      requires Valid() && t in requests
      modifies this
      ensures Valid() && requests.Keys == old(requests.Keys)
      ensures forall u <- requests :: u != t ==> requests[u] == old(requests)[u]
      ensures old(closed) <= closed && forall c <- closed - old(closed) :: old(Holders(requests))[c] == 0
      ensures old(evicted) <= evicted && old(dials) <= dials && old(dead) <= dead
      ensures requests[t].Holding? ==> requests[t].conn !in evicted && requests[t].conn !in closed
      ensures dropped == old(dropped) + Overwritten(old(requests)[t], old(conns), old(dead))
      ensures forall c <- old(stored) ::
        old(InPool(conns, stored, c)) && !InPool(conns, stored, c) && c !in evicted
        <==> c in Overwritten(old(requests)[t], old(conns), old(dead))
    {
      Apart();
      Advance(t, host, failed);
      LeftUnretired(old(conns), old(stored), old(evicted), old(dropped), old(dead), conns, stored, evicted, dead, old(requests)[t]);
    }

    method Advance(t: nat, host: string, failed: bool)
      requires Valid() && t in requests
      modifies this
      ensures Valid() && requests.Keys == old(requests.Keys)
      ensures forall u <- requests :: u != t ==> requests[u] == old(requests)[u]
      ensures old(closed) <= closed && forall c <- closed - old(closed) :: old(Holders(requests))[c] == 0
      ensures old(evicted) <= evicted && old(dials) <= dials && old(dead) <= dead && old(stored.Keys) <= stored.Keys
      ensures requests[t].Holding? ==> requests[t].conn !in evicted && requests[t].conn !in closed
      ensures dropped == old(dropped) + Overwritten(old(requests)[t], old(conns), old(dead))
      ensures old(requests)[t].Dialed? ==> evicted == old(evicted)
    {
      hide Inv;
      hide Holders;
      hide PoolExact;
      match requests[t]
      case Idle => Want(t, host);
      case Wanting(_) => Lookup(t);
      case Found(_, _) => TestFound(t);
      case Stale(_, _) => EvictStale(t);
      case Dialing(_) => Dial(t, failed);
      case Dialed(_, _) => Store(t);
      case Lost(_, _, _) => CloseLost(t);
      case Got(_, _) => Count(t, failed);
      case Holding(_, _) => Dispose(t, failed);
      case Retiring(_, _) => EvictHeld(t);
      case Releasing(_) => Release(t);
      case Closing(_, _) => FinishClose(t);
    }
  }

  function AfterClose(after: After): Request {
    match after
    case ThenDial(host) => Dialing(host)
    case ThenRelease(held) => Releasing(held)
    case ThenDone => Idle
  }

  /** The connection just dialed takes its host's place in the pool. */
  lemma StoreKeeps(requests: Requests, conns: map<string, Conn>, inflight: map<Conn, nat>, stored: map<Conn, string>,
                   closed: set<Conn>, dead: set<Conn>, draining: set<Conn>, evicted: set<Conn>, dials: nat,
                   dropped: set<Conn>, t: nat)
    requires Inv(requests, conns, inflight, stored, closed, dead, draining, evicted, dials, dropped)
    requires t in requests && requests[t].Dialed? && (requests[t].host in conns ==> conns[requests[t].host] in dead)
    ensures var host, mine := requests[t].host, requests[t].conn;
      Inv(requests[t := Got(host, mine)], conns[host := mine], inflight, stored[mine := host], closed, dead, draining,
          evicted, dials, dropped + Overwritten(requests[t], conns, dead))
  {
    hide Holders;
    hide BeingClosed;
    hide Owned;
    hide Pooled;
    hide Counted;
    hide Retired;
    hide NoLeak;
    var host, mine := requests[t].host, requests[t].conn;
    var next := Got(host, mine);
    Facts(requests, t, next, conns, stored, closed, dead, dials);
    assert requests[t].Owns(mine);
    PooledHolds(conns, stored, closed, evicted, dials);
    PooledStore(conns, stored, closed, evicted, dials, host, mine);
    AllSoundStep(requests, t, next, conns, stored, closed, dead, Holders(requests), dials,
                 conns[host := mine], stored[mine := host], closed, dead, Holders(requests), dials);
    OwnersStep(requests, t, next);
    hide AllSound;
    hide SingleOwners;
    hide Sound;
    RetiredHolds(closed, draining, evicted, Holders(requests), requests);
    RetiredStep(closed, draining, evicted, Holders(requests), requests,
                closed, draining, evicted, Holders(requests), requests[t := next]);
    LeakStep(requests, conns, stored, closed, dropped, draining, dials, requests[t := next],
             conns[host := mine], stored[mine := host], closed, dropped + Overwritten(requests[t], conns, dead), draining);
  }

  /** The connection that lost the race was never pooled, and nobody holds it. */
  lemma LoseKeeps(requests: Requests, conns: map<string, Conn>, inflight: map<Conn, nat>, stored: map<Conn, string>,
                  closed: set<Conn>, dead: set<Conn>, draining: set<Conn>, evicted: set<Conn>, dials: nat,
                  dropped: set<Conn>, t: nat)
    requires Inv(requests, conns, inflight, stored, closed, dead, draining, evicted, dials, dropped)
    requires t in requests && requests[t].Lost?
    ensures Holders(requests)[requests[t].mine] == 0
    ensures var r := requests[t];
      Inv(requests[t := Got(r.host, r.conn)], conns, inflight, stored, closed + {r.mine}, dead + {r.mine}, draining,
          evicted, dials, dropped)
  {
    hide Holders;
    hide BeingClosed;
    hide Owned;
    hide Pooled;
    hide Counted;
    hide Retired;
    hide NoLeak;
    var mine := requests[t].mine;
    var next := Got(requests[t].host, requests[t].conn);
    Facts(requests, t, next, conns, stored, closed, dead, dials);
    assert requests[t].Owns(mine);
    PooledClose(conns, stored, closed, evicted, dials, mine);
    AllSoundStep(requests, t, next, conns, stored, closed, dead, Holders(requests), dials,
                 conns, stored, closed + {mine}, dead + {mine}, Holders(requests), dials);
    OwnersStep(requests, t, next);
    hide AllSound;
    hide SingleOwners;
    hide Sound;
    RetiredHolds(closed, draining, evicted, Holders(requests), requests);
    RetiredStep(closed, draining, evicted, Holders(requests), requests,
                closed + {mine}, draining, evicted, Holders(requests), requests[t := next]);
    LeakStep(requests, conns, stored, closed, dropped, draining, dials,
             requests[t := next], conns, stored, closed + {mine}, dropped, draining);
  }

  lemma EvictKeeps(requests: Requests, conns: map<string, Conn>, inflight: map<Conn, nat>, stored: map<Conn, string>,
                   closed: set<Conn>, dead: set<Conn>, draining: set<Conn>, evicted: set<Conn>, dials: nat,
                   dropped: set<Conn>, t: nat, host: string, conn: Conn, next: Request, left: map<string, Conn>)
    requires Inv(requests, conns, inflight, stored, closed, dead, draining, evicted, dials, dropped)
    requires t in requests && conn in stored && stored[conn] == host && !requests[t].Closing?
    requires left == if host in conns && conns[host] == conn then conns - {host} else conns
    requires next.Held() == requests[t].Held() && forall c: Conn :: !requests[t].Owns(c) && !next.Owns(c)
    requires if CountOf(inflight, conn) == 0
      then next.Closing? && next.conn == conn && (next.after.ThenRelease? ==> next.after.held in stored)
      else !next.Closing? && Sound(next, conns, stored, closed, dead, Holders(requests), dials)
    ensures Inv(requests[t := next], left, inflight, stored, closed, dead,
                if CountOf(inflight, conn) == 0 then draining else draining + {conn}, evicted + {conn}, dials, dropped)
  {
    hide Holders;
    hide Request.Held;
    hide Request.Owns;
    hide BeingClosed;
    hide Owned;
    hide Pooled;
    hide Retired;
    hide NoLeak;
    var drained := if CountOf(inflight, conn) == 0 then draining else draining + {conn};
    CountIs(inflight, Holders(requests), conn);
    hide Counted;
    Facts(requests, t, next, conns, stored, closed, dead, dials);
    PooledHolds(conns, stored, closed, evicted, dials);
    PooledEvict(conns, stored, closed, evicted, dials, host, conn, left);
    AllSoundStep(requests, t, next, conns, stored, closed, dead, Holders(requests), dials,
                 left, stored, closed, dead, Holders(requests), dials);
    OwnersStep(requests, t, next);
    hide AllSound;
    hide SingleOwners;
    hide Sound;
    hide Gone;
    RetiredHolds(closed, draining, evicted, Holders(requests), requests);
    RetiredStep(closed, draining, evicted, Holders(requests), requests,
                closed, drained, evicted + {conn}, Holders(requests), requests[t := next]);
    LeakStep(requests, conns, stored, closed, dropped, draining, dials, requests[t := next], left, stored, closed, dropped, drained);
  }

  /** Only the pool's own, unretired connection gains a user. */
  lemma CountKeeps(requests: Requests, conns: map<string, Conn>, inflight: map<Conn, nat>, stored: map<Conn, string>,
                   closed: set<Conn>, dead: set<Conn>, draining: set<Conn>, evicted: set<Conn>, dials: nat,
                   dropped: set<Conn>, t: nat)
    requires Inv(requests, conns, inflight, stored, closed, dead, draining, evicted, dials, dropped)
    requires t in requests && requests[t].Got? && requests[t].host in conns && conns[requests[t].host] == requests[t].conn
    ensures requests[t].conn !in evicted && requests[t].conn !in closed
    ensures var conn := requests[t].conn;
      Inv(requests[t := Holding(requests[t].host, conn)], conns, inflight[conn := CountOf(inflight, conn) + 1],
          stored, closed, dead, draining, evicted, dials, dropped)
  {
    hide Holders;
    hide BeingClosed;
    hide Owned;
    hide Pooled;
    hide Retired;
    hide NoLeak;
    var conn := requests[t].conn;
    var next := Holding(requests[t].host, conn);
    CountIs(inflight, Holders(requests), conn);
    Facts(requests, t, next, conns, stored, closed, dead, dials);
    PooledHolds(conns, stored, closed, evicted, dials);
    RetiredHolds(closed, draining, evicted, Holders(requests), requests);
    var held := Holders(requests[t := next]);
    assert forall c: Conn :: held[c] == Holders(requests)[c] + (if c == conn then 1 else 0);
    CountedUp(inflight, Holders(requests), conn, held);
    hide Request.Held;
    hide Counted;
    AllSoundStep(requests, t, next, conns, stored, closed, dead, Holders(requests), dials,
                 conns, stored, closed, dead, held, dials);
    OwnersStep(requests, t, next);
    hide AllSound;
    hide SingleOwners;
    hide Sound;
    hide Gone;
    RetiredStep(closed, draining, evicted, Holders(requests), requests, closed, draining, evicted, held, requests[t := next]);
    LeakStep(requests, conns, stored, closed, dropped, draining, dials, requests[t := next], conns, stored, closed, dropped, draining);
  }

  lemma HeldLess(requests: Requests, t: nat, next: Request)
    requires t in requests && requests[t].Releasing? && (next.Idle? || (next.Closing? && next.after.ThenDone?))
    ensures forall c: Conn :: Holders(requests)[c] == Holders(requests[t := next])[c] + if c == requests[t].conn then 1 else 0
  {
    HoldersMove(requests, t, next);
    hide Holders;
  }

  lemma NobodyOwns(requests: Requests, t: nat, next: Request)
    requires t in requests && !requests[t].Dialed? && !requests[t].Lost? && !next.Dialed? && !next.Lost?
    ensures forall c: Conn :: !requests[t].Owns(c) && !next.Owns(c)
  {
  }

  lemma ReleaseKeeps(requests: Requests, conns: map<string, Conn>, inflight: map<Conn, nat>, stored: map<Conn, string>,
                     closed: set<Conn>, dead: set<Conn>, draining: set<Conn>, evicted: set<Conn>, dials: nat,
                   dropped: set<Conn>, t: nat)
    requires Inv(requests, conns, inflight, stored, closed, dead, draining, evicted, dials, dropped)
    requires t in requests && requests[t].Releasing?
    ensures var conn := requests[t].conn; var left := CountOf(inflight, conn) - 1;
      var closing := left == 0 && conn in draining;
      var now := requests[t := if closing then Closing(conn, ThenDone) else Idle];
      left >= 0 && Holders(now)[conn] == left &&
      Inv(now, conns, if left == 0 then inflight - {conn} else inflight[conn := left], stored, closed, dead,
          if closing then draining - {conn} else draining, evicted, dials, dropped)
  {
    hide Holders;
    hide Request.Held;
    hide Request.Owns;
    hide BeingClosed;
    hide Owned;
    hide Pooled;
    hide Retired;
    hide NoLeak;
    var conn := requests[t].conn;
    CountIs(inflight, Holders(requests), conn);
    var left: int := CountOf(inflight, conn) - 1;
    var closing := left == 0 && conn in draining;
    var next := if closing then Closing(conn, ThenDone) else Idle;
    var drained := if closing then draining - {conn} else draining;
    Facts(requests, t, next, conns, stored, closed, dead, dials);
    PooledHolds(conns, stored, closed, evicted, dials);
    RetiredHolds(closed, draining, evicted, Holders(requests), requests);
    var held := Holders(requests[t := next]);
    HeldLess(requests, t, next);
    CountedDown(inflight, Holders(requests), conn, held);
    hide Counted;
    AllSoundStep(requests, t, next, conns, stored, closed, dead, Holders(requests), dials,
                 conns, stored, closed, dead, held, dials);
    NobodyOwns(requests, t, next);
    OwnersStep(requests, t, next);
    hide AllSound;
    hide SingleOwners;
    hide Sound;
    hide Gone;
    RetiredStep(closed, draining, evicted, Holders(requests), requests, closed, drained, evicted, held, requests[t := next]);
    LeakStep(requests, conns, stored, closed, dropped, draining, dials, requests[t := next], conns, stored, closed, dropped, drained);
  }

  lemma AfterCloseHolds(r: Request)
    requires r.Closing?
    ensures AfterClose(r.after).Held() == r.Held()
  {
  }

  lemma CloseKeeps(requests: Requests, conns: map<string, Conn>, inflight: map<Conn, nat>, stored: map<Conn, string>,
                   closed: set<Conn>, dead: set<Conn>, draining: set<Conn>, evicted: set<Conn>, dials: nat,
                   dropped: set<Conn>, t: nat, next: Request)
    requires Inv(requests, conns, inflight, stored, closed, dead, draining, evicted, dials, dropped)
    requires t in requests && requests[t].Closing? && next == AfterClose(requests[t].after)
    ensures var conn := requests[t].conn;
      Holders(requests)[conn] == 0 &&
      Inv(requests[t := next], conns, inflight, stored, closed + {conn}, dead + {conn}, draining, evicted, dials, dropped)
  {
    hide Holders;
    hide BeingClosed;
    hide Owned;
    hide Pooled;
    hide Retired;
    hide NoLeak;
    var conn := requests[t].conn;
    AfterCloseHolds(requests[t]);
    hide Request.Held;
    Facts(requests, t, next, conns, stored, closed, dead, dials);
    hide Counted;
    PooledHolds(conns, stored, closed, evicted, dials);
    PooledClose(conns, stored, closed, evicted, dials, conn);
    AllSoundStep(requests, t, next, conns, stored, closed, dead, Holders(requests), dials,
                 conns, stored, closed + {conn}, dead + {conn}, Holders(requests), dials);
    OwnersStep(requests, t, next);
    OtherClosers(requests, t, next);
    hide AllSound;
    hide SingleOwners;
    hide Counted;
    hide Sound;
    RetiredHolds(closed, draining, evicted, Holders(requests), requests);
    RetiredStep(closed, draining, evicted, Holders(requests), requests,
                closed + {conn}, draining, evicted, Holders(requests), requests[t := next]);
    LeakStep(requests, conns, stored, closed, dropped, draining, dials,
             requests[t := next], conns, stored, closed + {conn}, dropped, draining);
  }

  lemma OtherClosers(requests: Requests, t: nat, next: Request)
    requires t in requests && requests[t].Closing? && !next.Closing?
    ensures forall c: Conn :: BeingClosed(requests, c) && c != requests[t].conn ==> BeingClosed(requests[t := next], c)
  {
    forall c: Conn | BeingClosed(requests, c) && c != requests[t].conn ensures BeingClosed(requests[t := next], c) {
      CloserStays(requests, t, next, c);
    }
  }

  // ---------- Runs ----------

  /** One request's next step: host is what an idle one asks for, failed whether its dial, its wait or its call fails. */
  datatype Event = Act(request: nat, host: string, failed: bool) | Death(conn: Conn)

  /**
   * Any interleaving of any requests' steps, with connections dying at any time: inflight is
   * always the number of holders, nothing held is closed, whatever was retired is closed,
   * being closed, or still held, and a connection is forgotten only if a dial overwrote it after
   * it had died.
   */
  method Run(users: set<nat>, events: seq<Event>) returns (client: Client)
    ensures fresh(client) && client.Valid()
    ensures forall c: Conn :: CountOf(client.inflight, c) == Holders(client.requests)[c]
    ensures forall c <- client.closed :: Holders(client.requests)[c] == 0
    ensures forall h <- client.conns :: client.conns[h] !in client.closed && client.conns[h] !in client.evicted
    ensures forall c <- client.evicted ::
      c in client.closed || BeingClosed(client.requests, c) || (c in client.draining && Holders(client.requests)[c] > 0)
    ensures NoLeak(client.requests, client.conns, client.stored, client.closed, client.dropped, client.draining, client.dials)
    ensures PoolExact(client.conns, client.stored, client.evicted, client.dropped, client.dead)
  {
    hide Inv;
    client := new Client(users);
    for i := 0 to |events|
      invariant client.Valid() && fresh(client)
    {
      match events[i] {
      case Act(t, host, failed) => if t in client.requests { client.Step(t, host, failed); }
      case Death(c) => client.Die(c);
      }
    }
    Summary(client);
  }

  method BothDialed() returns (client: Client)
    ensures fresh(client) && client.Valid() && client.conns == map[] && client.inflight == map[]
    ensures client.draining == client.closed == client.dead == client.evicted == {}
    ensures client.requests == map[0 := Dialed("h", 0), 1 := Dialed("h", 1)]
  {
    hide Inv;
    hide Holders;
    hide PoolExact;
    client := new Client({0, 1});
    client.Want(0, "h");
    client.Lookup(0);
    client.Want(1, "h");
    client.Lookup(1);
    client.Dial(0, false);
    client.Dial(1, false);
  }

  lemma NobodyHas(requests: Requests, c: Conn)
    requires forall t <- requests :: requests[t].Idle? || (requests[t].Got? && requests[t].conn != c)
    ensures !Owned(requests, c) && !BeingClosed(requests, c) && Holders(requests)[c] == 0
  {
    hide Holders;
    if Holders(requests)[c] > 0 { HolderExists(requests, c); }
  }

  /**
   * Two requests find the pool empty and dial. Connection 0 is stored and dies, connection 1
   * takes its place, and the first request gives up: connection 0 is then nobody's, and it was
   * neither retired nor closed.
   */
  method DeadOverwritten() returns (client: Client)
    ensures fresh(client) && client.Valid() && client.conns == map["h" := 1]
    ensures 0 in client.stored && 0 in client.dead && !InPool(client.conns, client.stored, 0)
    ensures 0 !in client.evicted && 0 !in client.draining && 0 !in client.closed
    ensures !Owned(client.requests, 0) && !BeingClosed(client.requests, 0) && Holders(client.requests)[0] == 0
    ensures client.requests == map[0 := Idle, 1 := Got("h", 1)]
  {
    hide Inv;
    hide Holders;
    hide PoolExact;
    hide Owned;
    hide BeingClosed;
    client := BothDialed();
    client.Store(0);
    client.Apart();
    client.Die(0);
    client.Store(1);
    client.Apart();
    client.Count(0, true);
    NobodyHas(client.requests, 0);
  }

  lemma Summary(client: Client)
    requires client.Valid()
    ensures forall c: Conn :: CountOf(client.inflight, c) == Holders(client.requests)[c]
    ensures forall c <- client.closed :: Holders(client.requests)[c] == 0
    ensures forall h <- client.conns :: client.conns[h] !in client.closed && client.conns[h] !in client.evicted
    ensures forall c <- client.evicted ::
      c in client.closed || BeingClosed(client.requests, c) || (c in client.draining && Holders(client.requests)[c] > 0)
    ensures NoLeak(client.requests, client.conns, client.stored, client.closed, client.dropped, client.draining, client.dials)
    ensures PoolExact(client.conns, client.stored, client.evicted, client.dropped, client.dead)
  {
  }
}
