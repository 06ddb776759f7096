/** The three retry loops: accepting connections (internal/netutil/accept.go), holding the
    control connection (internal/client/client.go) and supervising a transport
    (internal/client/runner.go). Each loop is run over any history of outcomes and shown to
    wait what a closed form says. */
module Backoff {

  // Milliseconds.
  const MIN_ACCEPT_DELAY := 5
  const MAX_ACCEPT_DELAY := 1000
  // Seconds.
  const MIN_BACKOFF := 3
  const MAX_BACKOFF := 60

  function Min(a: nat, b: nat): nat { if a < b then a else b }

  function Max(a: nat, b: nat): nat { if a < b then b else a }

  function Pow2(k: nat): nat {
    if k == 0 then 1 else 2 * Pow2(k - 1)
  }

  // ---- closed forms ----

  /** The wait after the k-th accept error in a row. */
  function AcceptDelay(k: nat): nat
    requires k > 0
  {
    Min(MIN_ACCEPT_DELAY * Pow2(k - 1), MAX_ACCEPT_DELAY)
  }

  /** The wait after the k-th failure in a row of a reconnect loop. */
  function ReconnectDelay(k: nat): nat
    requires k > 0
  {
    Min(MIN_BACKOFF * Pow2(k - 1), MAX_BACKOFF)
  }

  lemma {:induction false} Pow2AtLeast(k: nat, m: nat)
    requires k >= m
    ensures Pow2(k) >= Pow2(m) > 0
  {
    if k == m {
      if m > 0 { Pow2AtLeast(m - 1, m - 1); }
    } else {
      Pow2AtLeast(k - 1, m);
    }
  }

  lemma AcceptDelayStep(k: nat)
    requires k > 0
    ensures Min(Max(2 * AcceptDelay(k), MIN_ACCEPT_DELAY), MAX_ACCEPT_DELAY) == AcceptDelay(k + 1)
  {
    Pow2AtLeast(k - 1, 0);
    assert Pow2(k) == 2 * Pow2(k - 1);
  }

  lemma ReconnectDelayStep(k: nat)
    requires k > 0
    ensures Min(2 * ReconnectDelay(k), MAX_BACKOFF) == ReconnectDelay(k + 1)
  {
    Pow2AtLeast(k - 1, 0);
    assert Pow2(k) == 2 * Pow2(k - 1);
  }

  /** In seconds: 3, 6, 12, 24, 48, and 60 from then on. */
  lemma ReconnectDelaysAre(k: nat)
    requires k > 0
    ensures ReconnectDelay(k) ==
      if k == 1 then 3 else if k == 2 then 6 else if k == 3 then 12
      else if k == 4 then 24 else if k == 5 then 48 else 60
  {
    assert Pow2(5) == 2 * Pow2(4) == 4 * Pow2(3) == 8 * Pow2(2) == 16 * Pow2(1) == 32 * Pow2(0);
    if k >= 6 { Pow2AtLeast(k - 1, 5); }
  }

  /** In milliseconds: 5, 10, 20, 40, 80, 160, 320, 640, and 1000 from then on. */
  lemma AcceptDelaysAre(k: nat)
    requires k > 0
    ensures AcceptDelay(k) == if k <= 8 then 5 * Pow2(k - 1) else 1000
    ensures AcceptDelay(1) == 5 && AcceptDelay(8) == 640
  {
    assert Pow2(8) == 2 * Pow2(7) == 4 * Pow2(6) == 8 * Pow2(5) == 16 * Pow2(4) == 32 * Pow2(3)
        == 64 * Pow2(2) == 128 * Pow2(1) == 256 * Pow2(0);
    if k <= 8 { Pow2AtLeast(7, k - 1); } else { Pow2AtLeast(k - 1, 8); }
  }

  /** All the waiting of k accept errors in a row. */
  function TotalAcceptWait(k: nat): nat {
    if k == 0 then 0 else TotalAcceptWait(k - 1) + AcceptDelay(k)
  }

  lemma {:induction false} TotalWhileDoubling(k: nat)
    requires k <= 8
    ensures TotalAcceptWait(k) == MIN_ACCEPT_DELAY * (Pow2(k) - 1)
  {
    if k > 0 {
      TotalWhileDoubling(k - 1);
      Pow2AtLeast(7, k - 1);
      assert Pow2(7) == 2 * Pow2(6) == 4 * Pow2(5) == 8 * Pow2(4)
          == 16 * Pow2(3) == 32 * Pow2(2) == 64 * Pow2(1) == 128 * Pow2(0);
      assert Pow2(k) == 2 * Pow2(k - 1);
    }
  }

  /** From the eighth error in a row on, the total is linear. */
  lemma {:induction false} TotalAcceptWaitIsLinear(k: nat)
    requires k >= 8
    ensures TotalAcceptWait(k) == 1275 + 1000 * (k - 8)
  {
    assert Pow2(8) == 2 * Pow2(7) == 4 * Pow2(6) == 8 * Pow2(5)
        == 16 * Pow2(4) == 32 * Pow2(3) == 64 * Pow2(2) == 128 * Pow2(1) == 256 * Pow2(0);
    if k == 8 {
      TotalWhileDoubling(8);
    } else {
      TotalAcceptWaitIsLinear(k - 1);
      Pow2AtLeast(k - 1, 8);
    }
  }

  // ---- accepting ----

  /** One Accept: a connection; an error after which the loop retries; one it ends on at once
      (the context is done or the listener closed); or one whose wait the context cuts short. */
  datatype Outcome = Accepted(conn: nat) | Retries | EndsAtOnce | EndsWaiting

  predicate IsError(o: Outcome) {
    o == Retries || o == EndsWaiting
  }

  /** Errors in a row up to and including position p. */
  function ErrorsUpTo(os: seq<Outcome>, p: nat): nat
    requires p < |os|
  {
    if !IsError(os[p]) then 0 else if p == 0 then 1 else 1 + ErrorsUpTo(os, p - 1)
  }

  function Connections(os: seq<Outcome>): seq<nat> {
    if os == [] then []
    else Connections(os[..|os| - 1]) + (if os[|os| - 1].Accepted? then [os[|os| - 1].conn] else [])
  }

  /** The wait that follows position p: none after a connection. */
  function WaitAt(os: seq<Outcome>, p: nat): nat
    requires p < |os|
  {
    if IsError(os[p]) then AcceptDelay(ErrorsUpTo(os, p)) else 0
  }

  /** The loop's own update of its delay. */
  lemma WaitStep(os: seq<Outcome>, p: nat)
    requires p < |os| && IsError(os[p])
    ensures WaitAt(os, p) == Min(Max(2 * (if p > 0 then WaitAt(os, p - 1) else 0), MIN_ACCEPT_DELAY), MAX_ACCEPT_DELAY)
  {
    if p > 0 && IsError(os[p - 1]) {
      AcceptDelayStep(ErrorsUpTo(os, p - 1));
      assert ErrorsUpTo(os, p) == 1 + ErrorsUpTo(os, p - 1);
    } else {
      assert ErrorsUpTo(os, p) == 1 && Pow2(0) == 1;
    }
  }

  lemma ConnectionsStep(os: seq<Outcome>, p: nat)
    requires p < |os|
    ensures Connections(os[..p + 1]) == Connections(os[..p]) + (if os[p].Accepted? then [os[p].conn] else [])
  {
    assert os[..p + 1][..p] == os[..p];
  }

  /** The loop goes on after this outcome. */
  predicate GoesOn(o: Outcome) {
    o.Accepted? || o == Retries
  }

  /** AcceptLoop over any history: each connection is served, in order, until the loop ends at
      the first fatal outcome; after each other error it waits the closed form of the number of
      errors in a row, however many connections came before. waits holds 0 for a connection. */
  method AcceptLoop(os: seq<Outcome>) returns (served: seq<nat>, waits: seq<nat>)
    ensures |waits| <= |os| && served == Connections(os[..|waits|])
    ensures forall p :: 0 <= p < |waits| ==> waits[p] == WaitAt(os, p)
    ensures forall p :: 0 <= p < |waits| - 1 ==> GoesOn(os[p])
    ensures |waits| < |os| ==> os[|waits|] == EndsAtOnce || (|waits| > 0 && os[|waits| - 1] == EndsWaiting)
  {
    served, waits := [], [];
    var delay: nat := 0;
    var p := 0;
    while p < |os| && os[p] != EndsAtOnce
      invariant p <= |os| && |waits| == p && served == Connections(os[..p])
      invariant forall q :: 0 <= q < p ==> waits[q] == WaitAt(os, q)
      invariant forall q :: 0 <= q < p ==> GoesOn(os[q])
      invariant delay == if p > 0 then WaitAt(os, p - 1) else 0
    {
      ConnectionsStep(os, p);
      if os[p].Accepted? {
        delay := 0;
        served := served + [os[p].conn];
      } else {
        WaitStep(os, p);
        delay := Min(Max(2 * delay, MIN_ACCEPT_DELAY), MAX_ACCEPT_DELAY);
      }
      waits := waits + [delay];
      if os[p] == EndsWaiting { return; }
      p := p + 1;
    }
  }

  // ---- reconnecting ----

  /** Attempts since the latest established one, itself included, or since startup. */
  function AttemptsUpTo(established: seq<bool>, p: nat): (k: nat)
    requires p < |established|
    ensures k > 0
  {
    if established[p] || p == 0 then 1 else 1 + AttemptsUpTo(established, p - 1)
  }

  /** client.Run's loop over any history of attempts, each lost in the end: established tells
      whether the server had accepted the client by then. */
  method ReconnectLoop(established: seq<bool>) returns (waits: seq<nat>)
    ensures |waits| == |established|
    ensures forall p :: 0 <= p < |waits| ==> waits[p] == ReconnectDelay(AttemptsUpTo(established, p))
  {
    waits := [];
    var backoff: nat := MIN_BACKOFF;
    for p := 0 to |established|
      invariant |waits| == p
      invariant forall q :: 0 <= q < p ==> waits[q] == ReconnectDelay(AttemptsUpTo(established, q))
      invariant backoff == if p == 0 then ReconnectDelay(1) else ReconnectDelay(AttemptsUpTo(established, p - 1) + 1)
    {
      if established[p] {
        backoff := MIN_BACKOFF;
      }
      waits := waits + [backoff];
      ReconnectDelayStep(AttemptsUpTo(established, p));
      backoff := Min(2 * backoff, MAX_BACKOFF);
    }
  }

  /** supervise's loop over any number of failures: the wait grows with each and is never reset. */
  method SuperviseLoop(failures: nat) returns (waits: seq<nat>)
    ensures |waits| == failures
    ensures forall p :: 0 <= p < |waits| ==> waits[p] == ReconnectDelay(p + 1)
  {
    waits := [];
    var backoff: nat := MIN_BACKOFF;
    for p := 0 to failures
      invariant |waits| == p && backoff == ReconnectDelay(p + 1)
      invariant forall q :: 0 <= q < p ==> waits[q] == ReconnectDelay(q + 1)
    {
      waits := waits + [backoff];
      ReconnectDelayStep(p + 1);
      backoff := Min(2 * backoff, MAX_BACKOFF);
    }
  }
}
