/** The concurrency throttler of interceptor/throttler.go. Two buffered
    channels of tokens become two counters (`tokens`, `backlogTokens`); a
    `select` becomes an input naming the case that fired. Each call first
    takes a backlog token, then waits for a primary token, runs the handler,
    and gives back what it took on every way out. */
module Throttle {
  import opened Grpc
  import Chain

  // ---------------------------------------------------------------------
  // Token accounting over values

  /** Pool sizes, with two ghost-like counters of the calls in flight:
      `waiting` calls hold only a backlog token, `running` calls hold a
      backlog token and a primary token. */
  datatype Pools = Pools(tokens: nat, backlog: nat, waiting: nat, running: nat)

  /** Every token is either in its channel or held by a call in flight. */
  predicate Accounted(p: Pools, limit: nat, backlogLimit: nat)
  {
    p.tokens + p.running == limit && p.backlog + p.waiting + p.running == limit + backlogLimit
  }

  /** One channel operation of one call. */
  datatype Move = TakeBacklog | TakeToken | ReturnToken | ReturnBacklog

  /** A receive completes only on a non-empty channel; a call gives back only
      what it holds. */
  predicate Enabled(p: Pools, m: Move)
  {
    match m
    case TakeBacklog => p.backlog > 0
    case TakeToken => p.waiting > 0 && p.tokens > 0
    case ReturnToken => p.running > 0
    case ReturnBacklog => p.waiting > 0
  }

  function Next(p: Pools, m: Move): (p': Pools)
    requires Enabled(p, m)
  {
    match m
    case TakeBacklog => p.(backlog := p.backlog - 1, waiting := p.waiting + 1)
    case TakeToken => p.(tokens := p.tokens - 1, waiting := p.waiting - 1, running := p.running + 1)
    case ReturnToken => p.(tokens := p.tokens + 1, waiting := p.waiting + 1, running := p.running - 1)
    case ReturnBacklog => p.(backlog := p.backlog + 1, waiting := p.waiting - 1)
  }

  /** Whether every move of `ms`, in order, is enabled when it is made. */
  predicate Runs(p: Pools, ms: seq<Move>)
    decreases |ms|
  {
    ms == [] || (Enabled(p, ms[0]) && Runs(Next(p, ms[0]), ms[1..]))
  }

  function After(p: Pools, ms: seq<Move>): (p': Pools)
    requires Runs(p, ms)
    decreases |ms|
  {
    if ms == [] then p else After(Next(p, ms[0]), ms[1..])
  }

  /** One move keeps every token accounted for, and a send never finds its
      channel full: the pools stay within the capacities `limit` and
      `limit + backlogLimit` that NewThrottler gives the channels. */
  lemma MovePreserves(p: Pools, m: Move, limit: nat, backlogLimit: nat)
    requires Accounted(p, limit, backlogLimit) && Enabled(p, m)
    ensures Accounted(Next(p, m), limit, backlogLimit)
    ensures m == ReturnToken ==> p.tokens < limit
    ensures m == ReturnBacklog ==> p.backlog < limit + backlogLimit
  {
  }

  /** Under any interleaving of the moves of any number of calls, the tokens
      stay accounted for; so at most `limit` handlers run at once, and at
      most `limit + backlogLimit` calls are in flight. */
  lemma {:induction false} AnyInterleavingAccounted(p: Pools, ms: seq<Move>, limit: nat, backlogLimit: nat)
    requires Accounted(p, limit, backlogLimit) && Runs(p, ms)
    ensures Accounted(After(p, ms), limit, backlogLimit)
    ensures After(p, ms).running <= limit
    ensures After(p, ms).waiting + After(p, ms).running <= limit + backlogLimit
    decreases |ms|
  {
    if ms != [] {
      MovePreserves(p, ms[0], limit, backlogLimit);
      AnyInterleavingAccounted(Next(p, ms[0]), ms[1..], limit, backlogLimit);
    }
  }

  /** A run extended by one more enabled move. */
  lemma {:induction false} RunsSnoc(p: Pools, ms: seq<Move>, m: Move)
    requires Runs(p, ms) && Enabled(After(p, ms), m)
    ensures Runs(p, ms + [m]) && After(p, ms + [m]) == Next(After(p, ms), m)
    decreases |ms|
  {
    if ms == [] {
      assert [] + [m] == [m] && [m][1..] == [];
    } else {
      RunsSnoc(Next(p, ms[0]), ms[1..], m);
      assert (ms + [m])[0] == ms[0] && (ms + [m])[1..] == ms[1..] + [m];
    }
  }

  // ---------------------------------------------------------------------
  // The select statements

  /** The inner `select`, once the call holds a backlog token. */
  datatype Inner = TimerFired | QueuedCtxDone(err: CtxErr) | GotToken

  /** The outer `select`: the context finishes first, or a backlog token
      arrives. */
  datatype Race = WaitingCtxDone(err: CtxErr) | GotBacklog(inner: Inner)

  /** The timer's error, with the text exactly as throttler.go:56 has it. */
  const LimitExceeded: Error := StatusError(ResourceExhausted, "Concurrent RPC limit exceeded")

  /** The moves one call makes, by the path it takes. */
  function Path(sel: Race): (ms: seq<Move>)
  {
    match sel
    case WaitingCtxDone(_) => []
    case GotBacklog(GotToken) => [TakeBacklog, TakeToken, ReturnToken, ReturnBacklog]
    case GotBacklog(_) => [TakeBacklog, ReturnBacklog]
  }

  /** Whatever path a call takes, it gives back every token it took. */
  lemma PathRestores(p: Pools, sel: Race)
    requires Runs(p, Path(sel))
    ensures After(p, Path(sel)) == p
  {
    var ms := Path(sel);
    if sel.GotBacklog? {
      var p1 := Next(p, TakeBacklog);
      assert ms[1..][1..] == ms[2..];
      if sel.inner == GotToken {
        var p2 := Next(p1, TakeToken);
        var p3 := Next(p2, ReturnToken);
        assert ms[2..][1..] == ms[3..] && ms[3..][1..] == [];
        calc {
          After(p, ms);
          After(p1, ms[1..]);
          After(p2, ms[2..]);
          After(p3, ms[3..]);
          After(Next(p3, ReturnBacklog), []);
        }
      } else {
        assert ms[2..] == [];
        calc {
          After(p, ms);
          After(p1, ms[1..]);
          After(Next(p1, ReturnBacklog), []);
        }
      }
    }
  }

  // ---------------------------------------------------------------------
  // The throttler

  class Throttler {
    const limit: nat
    const backlogLimit: nat
    const backlogTimeout: int
    /** Tokens in the primary channel. */
    var tokens: nat
    /** Tokens in the backlog channel. */
    var backlogTokens: nat
    ghost var waiting: nat
    ghost var running: nat

    ghost function State(): Pools
      reads this
    {
      Pools(tokens, backlogTokens, waiting, running)
    }

    ghost predicate Valid()
      reads this
    {
      Accounted(State(), limit, backlogLimit)
    }

    /** `NewThrottler`, which panics unless `limit >= 1` and
        `backlogLimit >= 0`; the loop fills both channels. */
    constructor(limit: int, backlogLimit: int, backlogTimeout: int)
      requires limit >= 1 && backlogLimit >= 0
      ensures this.limit == limit && this.backlogLimit == backlogLimit && this.backlogTimeout == backlogTimeout
      ensures tokens == limit && backlogTokens == limit + backlogLimit
      ensures waiting == 0 && running == 0
      ensures Valid()
    {
      this.limit := limit;
      this.backlogLimit := backlogLimit;
      this.backlogTimeout := backlogTimeout;
      tokens := 0;
      backlogTokens := 0;
      waiting := 0;
      running := 0;
      new;
      var i := 0;
      while i < limit + backlogLimit
        invariant 0 <= i <= limit + backlogLimit
        invariant tokens == (if i < limit then i else limit)
        invariant backlogTokens == i
        invariant waiting == 0 && running == 0
      {
        if i < limit {
          tokens := tokens + 1;
        }
        backlogTokens := backlogTokens + 1;
        i := i + 1;
      }
    }

    /** One channel operation. */
    method Do(m: Move)
      requires Valid() && Enabled(State(), m)
      modifies this
      ensures State() == Next(old(State()), m)
      ensures Valid()
    {
      MovePreserves(State(), m, limit, backlogLimit);
      match m
      case TakeBacklog =>
        backlogTokens := backlogTokens - 1;
        waiting := waiting + 1;
      case TakeToken =>
        tokens := tokens - 1;
        waiting := waiting - 1;
        running := running + 1;
      case ReturnToken =>
        tokens := tokens + 1;
        waiting := waiting + 1;
        running := running - 1;
      case ReturnBacklog =>
        backlogTokens := backlogTokens + 1;
        waiting := waiting - 1;
    }

    /** `Throttle`: `sel` names the case of each `select` that fired, and a
        receive fires only on a channel that holds a token. The timer and a
        finished context each fail the call without running the handler;
        otherwise the handler's reply is returned as it is. The channel
        operations made, in order, are `moves`: exactly `Path(sel)`, each
        enabled when made. On every path the pools end as they began, and the
        handler runs only while this call holds a backlog token and a primary
        token. */
    method Throttle<C, Q, P>(sel: Race, ctx: C, req: Q, handler: Chain.Handler<C, Q, Reply<P>>)
      returns (r: Reply<P>, ghost moves: seq<Move>)
      requires Valid()
      requires sel.GotBacklog? ==> backlogTokens > 0
      requires sel == GotBacklog(GotToken) ==> tokens > 0
      modifies this
      ensures moves == Path(sel) && Runs(old(State()), moves) && After(old(State()), moves) == State()
      ensures Valid() && State() == old(State())
      ensures sel.WaitingCtxDone? ==> r == Failed(ContextError(sel.err))
      ensures sel == GotBacklog(TimerFired) ==> r == Failed(LimitExceeded)
      ensures sel.GotBacklog? && sel.inner.QueuedCtxDone? ==> r == Failed(ContextError(sel.inner.err))
      ensures sel == GotBacklog(GotToken) ==> r == handler(ctx, req)
    {
      ghost var p0 := State();
      match sel
      case WaitingCtxDone(e) =>
        r := Failed(ContextError(e));
        moves := [];
      case GotBacklog(inner) =>
        Do(TakeBacklog);
        ghost var p1 := State();
        match inner {
          case TimerFired =>
            r := Failed(LimitExceeded);
            moves := [TakeBacklog];
          case QueuedCtxDone(e) =>
            r := Failed(ContextError(e));
            moves := [TakeBacklog];
          case GotToken =>
            Do(TakeToken);
            ghost var p2 := State();
            assert tokens == old(tokens) - 1 && backlogTokens == old(backlogTokens) - 1;
            r := handler(ctx, req);
            Do(ReturnToken);
            ghost var p3 := State();
            moves := [TakeBacklog, TakeToken, ReturnToken];
            assert moves[1..] == [TakeToken, ReturnToken] && moves[2..] == [ReturnToken] && moves[2..][1..] == [];
            assert p3 == Next(p2, ReturnToken) && After(p3, []) == p3;
            assert After(p2, [ReturnToken]) == After(p3, [ReturnToken][1..]);
            assert Runs(p2, moves[2..]) && After(p2, moves[2..]) == p3;
            assert Runs(p1, moves[1..]) && After(p1, moves[1..]) == p3;
        }
        assert moves[1..] == [] || moves[1..] == [TakeToken, ReturnToken];
        assert Runs(p0, moves) && After(p0, moves) == State();
        RunsSnoc(p0, moves, ReturnBacklog);
        Do(ReturnBacklog);
        moves := moves + [ReturnBacklog];
    }
  }
}
