/** Interceptor chains (interceptor/chain.go): a list of interceptors folded
    around a terminal handler so that the first interceptor is the
    outermost. Interceptors are functions; a stage's `next` is the chain of
    the stages after it. */
module Chain {

  // ---------------------------------------------------------------------
  // Server side

  /** `grpc.UnaryHandler` over contexts `C`, requests `Q` and results `P`. */
  type Handler<!C, !Q, P> = (C, Q) -> P

  /** `grpc.UnaryServerInterceptor`, with call info `I`. */
  type ServerInterceptor<!C, !Q, !I, !P> = (C, Q, I, Handler<C, Q, P>) -> P

  /** `buildServerChain`: the handler that runs `c` with `n` as its next. */
  function BuildServerChain<C(!new), Q(!new), I, P>(c: ServerInterceptor<C, Q, I, P>, n: Handler<C, Q, P>, info: I): (h: Handler<C, Q, P>)
    ensures forall ctx, req :: h(ctx, req) == c(ctx, req, info, n)
  {
    (ctx: C, req: Q) => c(ctx, req, info, n)
  }

  /** The chain of `ics` around `h`: `ics[0]` outermost. */
  function ServerChain<C(!new), Q(!new), I, P>(ics: seq<ServerInterceptor<C, Q, I, P>>, h: Handler<C, Q, P>, info: I): (chain: Handler<C, Q, P>)
    decreases |ics|
  {
    if ics == [] then h else BuildServerChain(ics[0], ServerChain(ics[1..], h, info), info)
  }

  /** The interceptor `UnaryServerChain(ics...)` returns, run on one call:
      the loop wraps from the last interceptor to the first, then the chain
      is called. With no interceptors the handler is called directly;
      otherwise the result is the first interceptor's, called with the same
      info and the chain of the others as its next. */
  method UnaryServerChain<C(!new), Q(!new), I, P>(ics: seq<ServerInterceptor<C, Q, I, P>>, ctx: C, req: Q, info: I, handler: Handler<C, Q, P>)
    returns (resp: P)
    ensures resp == ServerChain(ics, handler, info)(ctx, req)
    ensures ics == [] ==> resp == handler(ctx, req)
    ensures ics != [] ==> resp == ics[0](ctx, req, info, ServerChain(ics[1..], handler, info))
  {
    var chain := handler;
    var i := |ics|;
    while i > 0
      invariant 0 <= i <= |ics|
      invariant chain == ServerChain(ics[i..], handler, info)
    {
      i := i - 1;
      assert ics[i..][1..] == ics[i + 1..];
      chain := BuildServerChain(ics[i], chain, info);
    }
    assert ics[0..] == ics;
    resp := chain(ctx, req);
  }

  // ---------------------------------------------------------------------
  // Client side

  /** `grpc.UnaryInvoker` over the call's arguments `A` (context, method,
      request, reply, connection and options) and errors `E`. */
  type Invoker<!A, E> = A -> E

  /** `grpc.UnaryClientInterceptor`. */
  type ClientInterceptor<!A, !E> = (A, Invoker<A, E>) -> E

  /** `buildClientChain`: the invoker that runs `current` with `next` as its
      invoker, on the arguments it is given. */
  function BuildClientChain<A(!new), E>(current: ClientInterceptor<A, E>, next: Invoker<A, E>): (inv: Invoker<A, E>)
    ensures forall call :: inv(call) == current(call, next)
  {
    (call: A) => current(call, next)
  }

  function ClientChain<A(!new), E>(ics: seq<ClientInterceptor<A, E>>, invoker: Invoker<A, E>): (chain: Invoker<A, E>)
    decreases |ics|
  {
    if ics == [] then invoker else BuildClientChain(ics[0], ClientChain(ics[1..], invoker))
  }

  /** The interceptor `UnaryClientChain(ics...)` returns, run on one call. */
  method UnaryClientChain<A(!new), E>(ics: seq<ClientInterceptor<A, E>>, call: A, invoker: Invoker<A, E>) returns (err: E)
    ensures err == ClientChain(ics, invoker)(call)
    ensures ics == [] ==> err == invoker(call)
    ensures ics != [] ==> err == ics[0](call, ClientChain(ics[1..], invoker))
  {
    var chain := invoker;
    var i := |ics|;
    while i > 0
      invariant 0 <= i <= |ics|
      invariant chain == ClientChain(ics[i..], invoker)
    {
      i := i - 1;
      assert ics[i..][1..] == ics[i + 1..];
      chain := BuildClientChain(ics[i], chain);
    }
    assert ics[0..] == ics;
    err := chain(call);
  }

  // ---------------------------------------------------------------------
  // Ordering, stated over traces

  /** A trace event: stage `stage` starting (with what it was given), or
      finishing. */
  datatype Mark<X> = Before(stage: nat, seen: X) | After(stage: nat)

  /** A server interceptor that logs "before" with the info it received,
      calls its next, then logs "after". */
  function Logger<C, Q, I>(k: nat): ServerInterceptor<C, Q, I, seq<Mark<I>>>
  {
    (ctx: C, req: Q, info: I, next: Handler<C, Q, seq<Mark<I>>>) => [Before(k, info)] + next(ctx, req) + [After(k)]
  }

  function Loggers<C, Q, I>(lo: nat, hi: nat): (ics: seq<ServerInterceptor<C, Q, I, seq<Mark<I>>>>)
    requires lo <= hi
    ensures |ics| == hi - lo
    decreases hi - lo
  {
    if lo == hi then [] else [Logger(lo)] + Loggers(lo + 1, hi)
  }

  /** "before" marks of stages lo .. hi - 1, in that order. */
  function Befores<X>(lo: nat, hi: nat, seen: X): (s: seq<Mark<X>>)
    requires lo <= hi
    ensures |s| == hi - lo
    decreases hi - lo
  {
    if lo == hi then [] else [Before(lo, seen)] + Befores(lo + 1, hi, seen)
  }

  /** "after" marks of stages hi - 1 down to lo. */
  function Afters<X>(lo: nat, hi: nat): (s: seq<Mark<X>>)
    requires lo <= hi
    ensures |s| == hi - lo
    decreases hi - lo
  {
    if lo == hi then [] else Afters(lo + 1, hi) + [After(lo)]
  }

  /** One logging stage wraps the trace of the chain inside it. */
  lemma LoggerWraps<C(!new), Q(!new), I>(k: nat, more: seq<ServerInterceptor<C, Q, I, seq<Mark<I>>>>,
                             h: Handler<C, Q, seq<Mark<I>>>, info: I, ctx: C, req: Q)
    ensures ServerChain([Logger(k)] + more, h, info)(ctx, req)
            == [Before(k, info)] + ServerChain(more, h, info)(ctx, req) + [After(k)]
  {
    assert ([Logger<C, Q, I>(k)] + more)[1..] == more;
  }

  /** Wrapping the marks of stages lo + 1 .. hi - 1 in those of stage lo. */
  lemma Rewrap<X>(lo: nat, hi: nat, seen: X, x: seq<Mark<X>>)
    requires lo < hi
    ensures [Before(lo, seen)] + (Befores(lo + 1, hi, seen) + x + Afters(lo + 1, hi)) + [After(lo)]
            == Befores(lo, hi, seen) + x + Afters(lo, hi)
  {
    var b, a := Befores(lo + 1, hi, seen), Afters<X>(lo + 1, hi);
    assert Befores(lo, hi, seen) == [Before(lo, seen)] + b;
    assert Afters<X>(lo, hi) == a + [After(lo)];
    assert [Before(lo, seen)] + (b + x + a) + [After(lo)] == ([Before(lo, seen)] + b) + x + (a + [After(lo)]);
  }

  /** Stages lo .. hi - 1 nest: their "before" marks in list order (each with
      the same info), then the inner chain's trace, then their "after" marks
      in reverse order. */
  lemma {:induction false} ServerChainNests<C(!new), Q(!new), I>(lo: nat, hi: nat, rest: seq<ServerInterceptor<C, Q, I, seq<Mark<I>>>>,
                                                     h: Handler<C, Q, seq<Mark<I>>>, info: I, ctx: C, req: Q)
    requires lo <= hi
    ensures ServerChain(Loggers(lo, hi) + rest, h, info)(ctx, req)
            == Befores(lo, hi, info) + ServerChain(rest, h, info)(ctx, req) + Afters(lo, hi)
    decreases hi - lo
  {
    if lo == hi {
      assert Loggers<C, Q, I>(lo, hi) + rest == rest;
    } else {
      var more := Loggers<C, Q, I>(lo + 1, hi) + rest;
      assert Loggers<C, Q, I>(lo, hi) + rest == [Logger(lo)] + more;
      LoggerWraps(lo, more, h, info, ctx, req);
      ServerChainNests(lo + 1, hi, rest, h, info, ctx, req);
      Rewrap(lo, hi, info, ServerChain(rest, h, info)(ctx, req));
    }
  }

  /** For interceptors I0 .. In-1 that each log around their next, the trace
      is I0b .. In-1b, the handler's trace, In-1a .. I0a. */
  lemma ServerChainOrder<C(!new), Q(!new), I>(n: nat, h: Handler<C, Q, seq<Mark<I>>>, info: I, ctx: C, req: Q)
    ensures ServerChain(Loggers(0, n), h, info)(ctx, req) == Befores(0, n, info) + h(ctx, req) + Afters(0, n)
  {
    ServerChainNests(0, n, [], h, info, ctx, req);
    assert Loggers<C, Q, I>(0, n) + [] == Loggers(0, n);
  }

  /** A stage `b` that does not call its next (its result on this call is
      the same whatever next it is given) cuts the chain: the trace is the
      outer stages' marks around that stage's own result, the same for every
      list of inner stages and every handler. */
  lemma ShortCircuit<C(!new), Q(!new), I>(j: nat, b: ServerInterceptor<C, Q, I, seq<Mark<I>>>, rest: seq<ServerInterceptor<C, Q, I, seq<Mark<I>>>>,
                               h: Handler<C, Q, seq<Mark<I>>>, any: Handler<C, Q, seq<Mark<I>>>, info: I, ctx: C, req: Q)
    requires forall n1, n2 :: b(ctx, req, info, n1) == b(ctx, req, info, n2)
    ensures ServerChain(Loggers(0, j) + ([b] + rest), h, info)(ctx, req)
            == Befores(0, j, info) + b(ctx, req, info, any) + Afters(0, j)
  {
    ServerChainNests(0, j, [b] + rest, h, info, ctx, req);
    assert ([b] + rest)[1..] == rest;
    assert ServerChain([b] + rest, h, info)(ctx, req) == b(ctx, req, info, ServerChain(rest, h, info));
  }

  /** A client interceptor that logs "before" with the call arguments it
      received, calls its invoker with them, then logs "after". */
  function ClientLogger<A>(k: nat): ClientInterceptor<A, seq<Mark<A>>>
  {
    (call: A, next: Invoker<A, seq<Mark<A>>>) => [Before(k, call)] + next(call) + [After(k)]
  }

  function ClientLoggers<A>(lo: nat, hi: nat): (ics: seq<ClientInterceptor<A, seq<Mark<A>>>>)
    requires lo <= hi
    ensures |ics| == hi - lo
    decreases hi - lo
  {
    if lo == hi then [] else [ClientLogger(lo)] + ClientLoggers(lo + 1, hi)
  }

  /** One logging client stage wraps the trace of the chain inside it. */
  lemma ClientLoggerWraps<A(!new)>(k: nat, more: seq<ClientInterceptor<A, seq<Mark<A>>>>, invoker: Invoker<A, seq<Mark<A>>>, call: A)
    ensures ClientChain([ClientLogger(k)] + more, invoker)(call)
            == [Before(k, call)] + ClientChain(more, invoker)(call) + [After(k)]
  {
    assert ([ClientLogger<A>(k)] + more)[1..] == more;
  }

  /** Client stages lo .. hi - 1 each receive the call's own arguments, and
      nest around the inner chain as on the server side. */
  lemma {:induction false} ClientChainNests<A(!new)>(lo: nat, hi: nat, rest: seq<ClientInterceptor<A, seq<Mark<A>>>>,
                                               invoker: Invoker<A, seq<Mark<A>>>, call: A)
    requires lo <= hi
    ensures ClientChain(ClientLoggers(lo, hi) + rest, invoker)(call)
            == Befores(lo, hi, call) + ClientChain(rest, invoker)(call) + Afters(lo, hi)
    decreases hi - lo
  {
    if lo == hi {
      assert ClientLoggers<A>(lo, hi) + rest == rest;
    } else {
      var more := ClientLoggers<A>(lo + 1, hi) + rest;
      assert ClientLoggers<A>(lo, hi) + rest == [ClientLogger(lo)] + more;
      ClientLoggerWraps(lo, more, invoker, call);
      ClientChainNests(lo + 1, hi, rest, invoker, call);
      Rewrap(lo, hi, call, ClientChain(rest, invoker)(call));
    }
  }

  /** For client interceptors I0 .. In-1 that each log around their invoker,
      the trace is I0b .. In-1b, the invoker's trace, In-1a .. I0a. */
  lemma ClientChainOrder<A(!new)>(n: nat, invoker: Invoker<A, seq<Mark<A>>>, call: A)
    ensures ClientChain(ClientLoggers(0, n), invoker)(call) == Befores(0, n, call) + invoker(call) + Afters(0, n)
  {
    ClientChainNests(0, n, [], invoker, call);
    assert ClientLoggers<A>(0, n) + [] == ClientLoggers(0, n);
  }

  /** A client stage `b` that does not call its invoker cuts the chain: the
      trace is the outer stages' marks around that stage's own result, the
      same for every list of inner stages and every invoker. */
  lemma ClientShortCircuit<A(!new)>(j: nat, b: ClientInterceptor<A, seq<Mark<A>>>, rest: seq<ClientInterceptor<A, seq<Mark<A>>>>,
                              invoker: Invoker<A, seq<Mark<A>>>, any: Invoker<A, seq<Mark<A>>>, call: A)
    requires forall n1, n2 :: b(call, n1) == b(call, n2)
    ensures ClientChain(ClientLoggers(0, j) + ([b] + rest), invoker)(call)
            == Befores(0, j, call) + b(call, any) + Afters(0, j)
  {
    ClientChainNests(0, j, [b] + rest, invoker, call);
    assert ([b] + rest)[1..] == rest;
    assert ClientChain([b] + rest, invoker)(call) == b(call, ClientChain(rest, invoker));
  }
}
