/** The client-side retry interceptor (interceptor/retry.go): a retry policy
    built from defaults and call options, and a per-call attempt loop that
    stops on success, on a code outside the retryable set, or on an error of
    the parent context, and makes at most `max` attempts.

    The invoker, the parent context's state and the outcome of each backoff
    wait are inputs (`Env`): attempt `i` of the loop is the `i`-th call of
    the invoker. */
module Retry {
  import opened Grpc
  import Meta

  /** `time.Duration`: nanoseconds. */
  type Duration = int

  const AttemptMetadataKey: string := "x-retry-attempty"

  const DefaultRetriableCodes: seq<Code> := [ResourceExhausted, Unavailable]

  /** `BackoffFunc`: the wait before an attempt, by attempt number. */
  type BackoffFunc = nat -> Duration

  /** `retryOptions`. */
  datatype RetryOptions = RetryOptions(
    max: nat,
    perCallTimeout: Duration,
    includeHeader: bool,
    codes: seq<Code>,
    backoff: BackoffFunc)

  /** `defaultOptions`: retries off, no per-attempt timeout, the attempt
      header on, the default retryable codes; `jittered` stands for the
      randomised 50ms backoff. */
  function DefaultOptions(jittered: BackoffFunc): (o: RetryOptions)
    ensures o.max == 0 && o.perCallTimeout == 0 && o.includeHeader
    ensures o.codes == [ResourceExhausted, Unavailable] && o.backoff == jittered
  {
    RetryOptions(0, 0, true, DefaultRetriableCodes, jittered)
  }

  // ---------------------------------------------------------------------
  // Call options

  /** A retry `CallOption`, named by what its `applyFunc` writes. */
  datatype CallOption =
    | SetMax(n: nat)
    | SetBackoff(f: BackoffFunc)
    | SetCodes(cs: seq<Code>)
    | SetPerCallTimeout(d: Duration)

  /** A gRPC call option as received by the interceptor: one of ours, or any
      other gRPC option (which the model only tells apart by a tag). */
  datatype GrpcCallOption = Other(tag: nat) | Retry(opt: CallOption)

  /** `applyFunc`: the option written into a policy. */
  function Apply(o: RetryOptions, c: CallOption): (r: RetryOptions)
    ensures r.includeHeader == o.includeHeader
    ensures r.max == (if c.SetMax? then c.n else o.max)
    ensures r.backoff == (if c.SetBackoff? then c.f else o.backoff)
    ensures r.codes == (if c.SetCodes? then c.cs else o.codes)
    ensures r.perCallTimeout == (if c.SetPerCallTimeout? then c.d else o.perCallTimeout)
  {
    match c
    case SetMax(n) => o.(max := n)
    case SetBackoff(f) => o.(backoff := f)
    case SetCodes(cs) => o.(codes := cs)
    case SetPerCallTimeout(d) => o.(perCallTimeout := d)
  }

  function WithRetryMax(maxRetries: nat): (c: CallOption)
    ensures forall o :: Apply(o, c) == o.(max := maxRetries)
  {
    SetMax(maxRetries)
  }

  function WithRetryDisable(): (c: CallOption)
    ensures forall o :: Apply(o, c).max == 0 && Apply(o, c) == o.(max := 0)
  {
    WithRetryMax(0)
  }

  function WithRetryBackoff(bf: BackoffFunc): (c: CallOption)
    ensures forall o :: Apply(o, c) == o.(backoff := bf)
  {
    SetBackoff(bf)
  }

  function WithRetryCodes(retryCodes: seq<Code>): (c: CallOption)
    ensures forall o :: Apply(o, c) == o.(codes := retryCodes)
  {
    SetCodes(retryCodes)
  }

  function WithPerRetryTimeout(timeout: Duration): (c: CallOption)
    ensures forall o :: Apply(o, c) == o.(perCallTimeout := timeout)
  {
    SetPerCallTimeout(timeout)
  }

  /** The policy after applying `cos` to `o` from first to last. */
  function ApplyAll(o: RetryOptions, cos: seq<CallOption>): (r: RetryOptions)
    decreases |cos|
  {
    if cos == [] then o else Apply(ApplyAll(o, cos[..|cos| - 1]), cos[|cos| - 1])
  }

  /** `mergeCallOptions`: the policy itself when there are no options,
      otherwise a copy with every option applied in order. */
  method MergeCallOptions(opt: RetryOptions, callOptions: seq<CallOption>) returns (r: RetryOptions)
    ensures |callOptions| == 0 ==> r == opt
    ensures r == ApplyAll(opt, callOptions)
  {
    if |callOptions| == 0 {
      return opt;
    }
    var optCopy := opt;
    for i := 0 to |callOptions|
      invariant optCopy == ApplyAll(opt, callOptions[..i])
    {
      assert callOptions[..i + 1][..i] == callOptions[..i];
      optCopy := Apply(optCopy, callOptions[i]);
    }
    assert callOptions[..|callOptions|] == callOptions;
    return optCopy;
  }

  /** The fields of a policy. */
  datatype Field = MaxField | TimeoutField | HeaderField | CodesField | BackoffField

  /** The field a call option writes. */
  function Writes(c: CallOption): Field
  {
    match c
    case SetMax(_) => MaxField
    case SetBackoff(_) => BackoffField
    case SetCodes(_) => CodesField
    case SetPerCallTimeout(_) => TimeoutField
  }

  /** Two policies agree on field `f`. */
  ghost predicate Agree(f: Field, a: RetryOptions, b: RetryOptions)
  {
    match f
    case MaxField => a.max == b.max
    case TimeoutField => a.perCallTimeout == b.perCallTimeout
    case HeaderField => a.includeHeader == b.includeHeader
    case CodesField => a.codes == b.codes
    case BackoffField => a.backoff == b.backoff
  }

  /** A field that no option writes keeps the base policy's value (in
      particular `includeHeader`, which no option writes). */
  lemma {:induction false} MergeKeepsUnwritten(o: RetryOptions, cos: seq<CallOption>, f: Field)
    requires forall i :: 0 <= i < |cos| ==> Writes(cos[i]) != f
    ensures Agree(f, ApplyAll(o, cos), o)
    decreases |cos|
  {
    if cos != [] {
      MergeKeepsUnwritten(o, cos[..|cos| - 1], f);
    }
  }

  /** The last option that writes a field decides it. */
  lemma {:induction false} MergeLastWriterWins(o: RetryOptions, pre: seq<CallOption>, c: CallOption, post: seq<CallOption>)
    requires forall i :: 0 <= i < |post| ==> Writes(post[i]) != Writes(c)
    ensures Agree(Writes(c), ApplyAll(o, pre + [c] + post), Apply(o, c))
    decreases |post|
  {
    var all := pre + [c] + post;
    if post == [] {
      assert all[..|all| - 1] == pre;
    } else {
      assert all[..|all| - 1] == pre + [c] + post[..|post| - 1];
      MergeLastWriterWins(o, pre, c, post[..|post| - 1]);
    }
  }

  // ---------------------------------------------------------------------
  // Splitting the call options

  /** The options that are not retry options, in order. */
  function PlainOptions(opts: seq<GrpcCallOption>): seq<GrpcCallOption>
    decreases |opts|
  {
    if opts == [] then []
    else
      var rest := PlainOptions(opts[..|opts| - 1]);
      if opts[|opts| - 1].Retry? then rest else rest + [opts[|opts| - 1]]
  }

  /** The retry options, in order. */
  function RetryOptionsOf(opts: seq<GrpcCallOption>): seq<CallOption>
    decreases |opts|
  {
    if opts == [] then []
    else
      var rest := RetryOptionsOf(opts[..|opts| - 1]);
      if opts[|opts| - 1].Retry? then rest + [opts[|opts| - 1].opt] else rest
  }

  /** `g` and `r` split `opts`: reading `opts` from the front, each retry
      option is the next element of `r` and each other option the next
      element of `g`, and nothing is left over. */
  ghost predicate Partition(opts: seq<GrpcCallOption>, g: seq<GrpcCallOption>, r: seq<CallOption>)
    decreases |opts|
  {
    if opts == [] then g == [] && r == []
    else if opts[0].Retry? then r != [] && r[0] == opts[0].opt && Partition(opts[1..], g, r[1..])
    else g != [] && g[0] == opts[0] && Partition(opts[1..], g[1..], r)
  }

  lemma {:induction false} PartitionExtend(opts: seq<GrpcCallOption>, g: seq<GrpcCallOption>, r: seq<CallOption>, x: GrpcCallOption)
    requires Partition(opts, g, r)
    ensures x.Retry? ==> Partition(opts + [x], g, r + [x.opt])
    ensures !x.Retry? ==> Partition(opts + [x], g + [x], r)
    decreases |opts|
  {
    if opts == [] {
      assert (opts + [x])[1..] == [];
    } else {
      assert (opts + [x])[0] == opts[0];
      assert (opts + [x])[1..] == opts[1..] + [x];
      if opts[0].Retry? {
        PartitionExtend(opts[1..], g, r[1..], x);
        if x.Retry? {
          assert (r + [x.opt])[1..] == r[1..] + [x.opt];
        }
      } else {
        PartitionExtend(opts[1..], g[1..], r, x);
        assert (g + [x])[1..] == g[1..] + [x];
      }
    }
  }

  /** The splitting is a partition: every option lands in exactly one output,
      in its original relative order. */
  lemma {:induction false} SplitIsPartition(opts: seq<GrpcCallOption>)
    ensures Partition(opts, PlainOptions(opts), RetryOptionsOf(opts))
    decreases |opts|
  {
    if opts != [] {
      var init := opts[..|opts| - 1];
      SplitIsPartition(init);
      PartitionExtend(init, PlainOptions(init), RetryOptionsOf(init), opts[|opts| - 1]);
      assert init + [opts[|opts| - 1]] == opts;
    }
  }

  /** A partition of `opts` is unique, holds every option once, and puts no
      retry option among the gRPC ones. */
  lemma {:induction false} PartitionFacts(opts: seq<GrpcCallOption>, g: seq<GrpcCallOption>, r: seq<CallOption>,
                                          g': seq<GrpcCallOption>, r': seq<CallOption>)
    requires Partition(opts, g, r) && Partition(opts, g', r')
    ensures g == g' && r == r'
    ensures |g| + |r| == |opts|
    ensures forall i :: 0 <= i < |g| ==> g[i].Other?
    decreases |opts|
  {
    if opts != [] {
      if opts[0].Retry? {
        PartitionFacts(opts[1..], g, r[1..], g', r'[1..]);
      } else {
        PartitionFacts(opts[1..], g[1..], r, g'[1..], r');
      }
    }
  }

  /** `splitCallOptions`. */
  method SplitCallOptions(callOptions: seq<GrpcCallOption>) returns (grpcOptions: seq<GrpcCallOption>, retryOptions: seq<CallOption>)
    ensures grpcOptions == PlainOptions(callOptions)
    ensures retryOptions == RetryOptionsOf(callOptions)
  {
    grpcOptions, retryOptions := [], [];
    for i := 0 to |callOptions|
      invariant grpcOptions == PlainOptions(callOptions[..i])
      invariant retryOptions == RetryOptionsOf(callOptions[..i])
    {
      assert callOptions[..i + 1][..i] == callOptions[..i];
      match callOptions[i]
      case Retry(co) =>
        retryOptions := retryOptions + [co];
      case Other(_) =>
        grpcOptions := grpcOptions + [callOptions[i]];
    }
    assert callOptions[..|callOptions|] == callOptions;
  }

  // ---------------------------------------------------------------------
  // Classifying errors

  /** `isContextError`: the error's code is DeadlineExceeded or Canceled. */
  function IsContextError(e: Error): (b: bool)
    ensures b <==> e.StatusError? && (e.code == DeadlineExceeded || e.code == Canceled)
  {
    CodeOf(e) == DeadlineExceeded || CodeOf(e) == Canceled
  }

  /** The scan of `isRetriable` over the code list. */
  function Contains(cs: seq<Code>, c: Code): (b: bool)
    ensures b <==> c in cs
    decreases |cs|
  {
    if cs == [] then false else cs[0] == c || Contains(cs[1..], c)
  }

  /** `isRetriable`: never for a context error, otherwise exactly when the
      error's code is one of the policy's codes. */
  function IsRetriable(e: Error, o: RetryOptions): (b: bool)
    ensures b <==> !IsContextError(e) && CodeOf(e) in o.codes
  {
    if IsContextError(e) then false else Contains(o.codes, CodeOf(e))
  }

  /** `convToGrpcErr`: a context's error as a gRPC status error. */
  function ConvToGrpcErr(e: CtxErr): (r: Error)
    ensures r.StatusError? && r.msg == CtxErrText(e)
    ensures IsContextError(r) <==> !e.CtxOther?
    ensures e == CtxDeadlineExceeded <==> CodeOf(r) == DeadlineExceeded
    ensures e == CtxCanceled <==> CodeOf(r) == Canceled
    ensures e.CtxOther? ==> r.code == Unknown
  {
    match e
    case CtxDeadlineExceeded => StatusError(DeadlineExceeded, CtxErrText(e))
    case CtxCanceled => StatusError(Canceled, CtxErrText(e))
    case CtxOther(_) => StatusError(Unknown, CtxErrText(e))
  }

  /** A context error passed on as it is (not as a status error) has code
      Unknown, so it is not a context error to `isContextError`. */
  lemma RawContextErrorIsNotContextError(e: CtxErr, o: RetryOptions)
    ensures !IsContextError(ContextError(e))
    ensures IsRetriable(ContextError(e), o) <==> Unknown in o.codes
  {
  }

  // ---------------------------------------------------------------------
  // Waiting and the per-attempt context

  /** Which case of the backoff `select` fires: the timer, or the parent
      context being done with the given error. */
  datatype WaitOutcome = Ticked | ParentDone(err: CtxErr)

  /** `waitRetryBackoff`: attempt 0 and a non-positive backoff never wait;
      otherwise the wait fails exactly when the parent finishes first, with
      the parent's error converted. */
  function WaitRetryBackoff(attempt: nat, o: RetryOptions, w: WaitOutcome): (r: Option<Error>)
    ensures attempt == 0 ==> r.None?
    ensures r.Some? <==> attempt > 0 && o.backoff(attempt) > 0 && w.ParentDone?
    ensures r.Some? ==> r.value == ConvToGrpcErr(w.err)
  {
    var waitTime := if attempt > 0 then o.backoff(attempt) else 0;
    if waitTime > 0 && w.ParentDone? then Some(ConvToGrpcErr(w.err)) else None
  }

  function DigitChar(d: nat): (c: char)
    requires d < 10
  {
    ('0' as int + d) as char
  }

  /** `fmt.Sprintf("%d", n)`. */
  function Decimal(n: nat): (s: string)
    ensures |s| >= 1
    decreases n
  {
    if n < 10 then [DigitChar(n)] else Decimal(n / 10) + [DigitChar(n % 10)]
  }

  /** The number a string of decimal digits denotes. */
  function DecimalValue(s: string): int
    decreases |s|
  {
    if s == [] then 0 else DecimalValue(s[..|s| - 1]) * 10 + (s[|s| - 1] as int - '0' as int)
  }

  /** The attempt header is all digits, has no leading zero, and denotes the
      attempt number. */
  lemma {:induction false} DecimalRoundTrip(n: nat)
    ensures forall i :: 0 <= i < |Decimal(n)| ==> '0' <= Decimal(n)[i] <= '9'
    ensures n > 0 ==> Decimal(n)[0] != '0'
    ensures DecimalValue(Decimal(n)) == n
    decreases n
  {
    var s := Decimal(n);
    if n >= 10 {
      DecimalRoundTrip(n / 10);
      assert s[..|s| - 1] == Decimal(n / 10);
    }
  }

  /** How the context handed to the invoker differs from the parent: the
      per-attempt timeout applied (if any) and the attempt header attached
      (if any). The parent itself is `CallCtx(None, None)`. */
  datatype CallCtx = CallCtx(timeout: Option<Duration>, header: Option<string>)

  const ParentCtx: CallCtx := CallCtx(None, None)

  /** The context `perCallContext` derives for `attempt`. */
  function AttemptContext(o: RetryOptions, attempt: nat): (c: CallCtx)
    ensures c.timeout.Some? <==> o.perCallTimeout != 0
    ensures c.timeout.Some? ==> c.timeout.value == o.perCallTimeout
    ensures c.header.Some? <==> attempt > 0 && o.includeHeader
    ensures c.header.Some? ==> DecimalValue(c.header.value) == attempt
  {
    if attempt > 0 && o.includeHeader then DecimalRoundTrip(attempt); CallCtx(PerCallTimeout(o), Some(Decimal(attempt)))
    else CallCtx(PerCallTimeout(o), None)
  }

  function PerCallTimeout(o: RetryOptions): Option<Duration>
  {
    if o.perCallTimeout != 0 then Some(o.perCallTimeout) else None
  }

  lemma AttemptKeyIsPlain()
    ensures Meta.Lower(AttemptMetadataKey) == AttemptMetadataKey
    ensures !Meta.IsBinKey(AttemptMetadataKey)
  {
    assert Meta.IsLowered(AttemptMetadataKey);
    Meta.LowerIsLowered(AttemptMetadataKey);
  }

  /** The header step of `perCallContext`: `Set` of the attempt number. The
      attempt key reads back the number under every spelling, every other
      key reads as before, and a context's existing metadata object is the
      one written to. */
  method AttachAttempt(ctx: Meta.Context, attempt: nat) returns (ctx': Meta.Context)
    modifies Meta.Frame(ctx)
    ensures ctx'.timeouts == ctx.timeouts
    ensures ctx.md.Some? ==> ctx'.md == ctx.md
    ensures ctx.md.Some? ==> ctx'.md.value.entries == old(ctx.md.value.entries)[AttemptMetadataKey := [Decimal(attempt)]]
    ensures ctx.md.None? ==> ctx'.md.Some? && fresh(ctx'.md.value)
    ensures ctx.md.None? ==> ctx'.md.value.entries == map[AttemptMetadataKey := [Decimal(attempt)]]
    ensures forall k :: Meta.Lower(k) == AttemptMetadataKey ==> Meta.Get(ctx', k) == (Decimal(attempt), true)
    ensures forall k :: Meta.Lower(k) != AttemptMetadataKey ==> Meta.Get(ctx', k) == old(Meta.Get(ctx, k))
  {
    var value := Decimal(attempt);
    AttemptKeyIsPlain();
    ghost var before := Meta.Entries(ctx);
    ctx' := Meta.Set(ctx, AttemptMetadataKey, value);
    if before.Some? {
      assert Meta.Entries(ctx') == Some(before.value[AttemptMetadataKey := [value]]);
      HeaderReadsBack(before.value, value);
    } else {
      assert Meta.Entries(ctx') == Some(map[][AttemptMetadataKey := [value]]);
      HeaderReadsBack(map[], value);
    }
  }

  /** Metadata holding `[v]` under the attempt key reads `v` back under every
      spelling of that key, and reads every other key as before. */
  lemma HeaderReadsBack(m: map<string, seq<string>>, v: string)
    ensures forall k :: Meta.Lower(k) == AttemptMetadataKey ==> Meta.Lookup(Some(m[AttemptMetadataKey := [v]]), k) == (v, true)
    ensures forall k :: Meta.Lower(k) != AttemptMetadataKey ==> Meta.Lookup(Some(m[AttemptMetadataKey := [v]]), k) == Meta.Lookup(Some(m), k)
  {
  }

  /** `perCallContext` on a context object, making the context that the
      attempt loop records as `AttemptContext(o, attempt)`: the timeout is
      applied when the policy has one, and when that context has a header
      (from attempt 1 on, with the header enabled) the attempt number is
      written with `Set`. That reuses the parent's own metadata when it has
      some, so the parent sees the header too; every other key reads as
      before. */
  method PerCallContext(parent: Meta.Context, o: RetryOptions, attempt: nat) returns (ctx: Meta.Context)
    modifies Meta.Frame(parent)
    ensures ctx.timeouts == parent.timeouts + (if o.perCallTimeout != 0 then [o.perCallTimeout] else [])
    ensures AttemptContext(o, attempt).timeout.Some? ==> ctx.timeouts == parent.timeouts + [AttemptContext(o, attempt).timeout.value]
    ensures parent.md.Some? ==> ctx.md == parent.md
    ensures AttemptContext(o, attempt).header.None? ==> ctx.md == parent.md && unchanged(Meta.Frame(parent))
    ensures AttemptContext(o, attempt).header.Some? && parent.md.Some? ==>
              ctx.md.value.entries == old(parent.md.value.entries)[AttemptMetadataKey := [AttemptContext(o, attempt).header.value]]
    ensures AttemptContext(o, attempt).header.Some? && parent.md.None? ==>
              ctx.md.Some? && fresh(ctx.md.value) && ctx.md.value.entries == map[AttemptMetadataKey := [AttemptContext(o, attempt).header.value]]
    ensures AttemptContext(o, attempt).header.Some? ==>
              forall k :: Meta.Lower(k) == AttemptMetadataKey ==> Meta.Get(ctx, k) == (AttemptContext(o, attempt).header.value, true)
    ensures forall k :: Meta.Lower(k) != AttemptMetadataKey ==> Meta.Get(ctx, k) == old(Meta.Get(parent, k))
  {
    ctx := parent;
    if o.perCallTimeout != 0 {
      ctx := Meta.Context(ctx.timeouts + [o.perCallTimeout], ctx.md);
    }
    assert Meta.Frame(ctx) == Meta.Frame(parent);
    if attempt > 0 && o.includeHeader {
      assert AttemptContext(o, attempt).header == Some(Decimal(attempt));
      ctx := AttachAttempt(ctx, attempt);
    }
  }

  // ---------------------------------------------------------------------
  // The attempt loop

  /** The inputs of one call: what the invoker returns on its `i`-th call
      (None for success), the parent context's `Err()` when checked after
      attempt `i`, and which case of the backoff wait before attempt `i`
      fires. */
  datatype Env = Env(
    invoker: nat -> Option<Error>,
    parentErr: nat -> Option<CtxErr>,
    wait: nat -> WaitOutcome)

  /** One call of the invoker: the context it was given and its options. */
  datatype Dispatch = Dispatch(ctx: CallCtx, opts: seq<GrpcCallOption>)

  /** The returned error (None is success) and the invoker calls made. */
  datatype Outcome = Outcome(err: Option<Error>, dispatches: seq<Dispatch>)

  /** What happens after an attempt returned `e`. */
  datatype Verdict = Succeeded | Stop | Continue

  function Classify(e: Option<Error>, parentErr: Option<CtxErr>, o: RetryOptions): (v: Verdict)
    ensures v == Stop <==> e.Some? && ((IsContextError(e.value) && parentErr.Some?) ||
                                       (!IsContextError(e.value) && CodeOf(e.value) !in o.codes))
  {
    if e.None? then Succeeded
    else if IsContextError(e.value) then (if parentErr.Some? then Stop else Continue)
    else if !IsRetriable(e.value, o) then Stop
    else Continue
  }

  /** An attempt carries on exactly when its error came from the attempt's
      own context (the parent not done), whatever the code set, or when it
      is retriable. */
  lemma ClassifyMeaning(e: Option<Error>, parentErr: Option<CtxErr>, o: RetryOptions)
    ensures Classify(e, parentErr, o) == Succeeded <==> e.None?
    ensures Classify(e, parentErr, o) == Continue <==>
              e.Some? && ((IsContextError(e.value) && parentErr.None?) || (CodeOf(e.value) in o.codes && !IsContextError(e.value)))
  {
  }

  /** The attempts from `attempt` on, after `lastErr` was returned. Attempt 0
      never waits (retry.go:163), and the parent context is only consulted
      after an attempt has failed, so a parent that is already done still
      gets one invoker call. */
  function Run(o: RetryOptions, g: seq<GrpcCallOption>, env: Env, attempt: nat, lastErr: Option<Error>): (r: Outcome)
    ensures attempt <= o.max ==> |r.dispatches| <= o.max - attempt
    ensures attempt >= o.max ==> r == Outcome(lastErr, [])
    ensures forall i :: 0 <= i < |r.dispatches| ==> r.dispatches[i] == Dispatch(AttemptContext(o, attempt + i), g)
    ensures forall j :: attempt <= j < attempt + |r.dispatches| ==>
              WaitRetryBackoff(j, o, env.wait(j)).None?
    ensures forall j :: attempt <= j < attempt + |r.dispatches| - 1 ==>
              Classify(env.invoker(j), env.parentErr(j), o) == Continue
    decreases o.max - attempt
  {
    if attempt >= o.max then Outcome(lastErr, [])
    else
      var w := WaitRetryBackoff(attempt, o, env.wait(attempt));
      if w.Some? then Outcome(w, [])
      else
        var d := Dispatch(AttemptContext(o, attempt), g);
        var e := env.invoker(attempt);
        match Classify(e, env.parentErr(attempt), o)
        case Succeeded => Outcome(None, [d])
        case Stop => Outcome(e, [d])
        case Continue =>
          var rest := Run(o, g, env, attempt + 1, e);
          Outcome(rest.err, [d] + rest.dispatches)
  }

  /** One attempt of `Run`, by whether its wait failed and by its verdict. */
  lemma RunStep(o: RetryOptions, g: seq<GrpcCallOption>, env: Env, attempt: nat, lastErr: Option<Error>)
    requires attempt < o.max
    ensures var w := WaitRetryBackoff(attempt, o, env.wait(attempt));
            var d := Dispatch(AttemptContext(o, attempt), g);
            var e := env.invoker(attempt);
            var v := Classify(e, env.parentErr(attempt), o);
            && (w.Some? ==> Run(o, g, env, attempt, lastErr) == Outcome(w, []))
            && (w.None? && v == Succeeded ==> Run(o, g, env, attempt, lastErr) == Outcome(None, [d]))
            && (w.None? && v == Stop ==> Run(o, g, env, attempt, lastErr) == Outcome(e, [d]))
            && (w.None? && v == Continue ==> Run(o, g, env, attempt, lastErr) == Then([d], Run(o, g, env, attempt + 1, e)))
  {
  }

  /** The dispatches of attempts `lo` .. `hi - 1`. */
  function Dispatches(o: RetryOptions, g: seq<GrpcCallOption>, lo: nat, hi: nat): (ds: seq<Dispatch>)
    requires lo <= hi
    ensures |ds| == hi - lo
    decreases hi - lo
  {
    if lo == hi then [] else [Dispatch(AttemptContext(o, lo), g)] + Dispatches(o, g, lo + 1, hi)
  }

  /** Attempts `j` in `[lo, hi)` all waited successfully and carried on. */
  ghost predicate CarriesOn(o: RetryOptions, env: Env, lo: nat, hi: nat)
  {
    forall j :: lo <= j < hi ==>
      WaitRetryBackoff(j, o, env.wait(j)).None? &&
      Classify(env.invoker(j), env.parentErr(j), o) == Continue
  }

  /** The first attempt that succeeds or must stop ends the loop with that
      attempt's result, after exactly the attempts up to it. */
  lemma {:induction false} RunStopsAtFirstFinal(o: RetryOptions, g: seq<GrpcCallOption>, env: Env, attempt: nat, lastErr: Option<Error>, k: nat)
    requires attempt <= k < o.max
    requires CarriesOn(o, env, attempt, k)
    requires WaitRetryBackoff(k, o, env.wait(k)).None?
    requires Classify(env.invoker(k), env.parentErr(k), o) != Continue
    ensures Run(o, g, env, attempt, lastErr) == Outcome(env.invoker(k), Dispatches(o, g, attempt, k + 1))
    decreases k - attempt
  {
    if attempt < k {
      RunStopsAtFirstFinal(o, g, env, attempt + 1, env.invoker(attempt), k);
    }
  }

  /** When every remaining attempt carries on, all of them are made and the
      last one's error is returned. */
  lemma {:induction false} RunExhausts(o: RetryOptions, g: seq<GrpcCallOption>, env: Env, attempt: nat, lastErr: Option<Error>)
    requires attempt < o.max
    requires CarriesOn(o, env, attempt, o.max)
    ensures Run(o, g, env, attempt, lastErr) == Outcome(env.invoker(o.max - 1), Dispatches(o, g, attempt, o.max))
    decreases o.max - attempt
  {
    if attempt + 1 < o.max {
      RunExhausts(o, g, env, attempt + 1, env.invoker(attempt));
    }
  }

  /** When the parent finishes during the backoff before attempt `k`, the
      loop returns the converted parent error and attempt `k` is never made. */
  lemma {:induction false} RunWaitAborts(o: RetryOptions, g: seq<GrpcCallOption>, env: Env, attempt: nat, lastErr: Option<Error>, k: nat)
    requires attempt <= k < o.max
    requires CarriesOn(o, env, attempt, k)
    requires WaitRetryBackoff(k, o, env.wait(k)).Some?
    ensures k > 0 && env.wait(k).ParentDone?
    ensures Run(o, g, env, attempt, lastErr) == Outcome(Some(ConvToGrpcErr(env.wait(k).err)), Dispatches(o, g, attempt, k))
    decreases k - attempt
  {
    if attempt < k {
      RunWaitAborts(o, g, env, attempt + 1, env.invoker(attempt), k);
    }
  }

  /** The whole call for a merged policy `init` and the call's options. */
  function RetrySpec(init: RetryOptions, opts: seq<GrpcCallOption>, env: Env): (r: Outcome)
  {
    var o := ApplyAll(init, RetryOptionsOf(opts));
    var g := PlainOptions(opts);
    if o.max == 0 then Outcome(env.invoker(0), [Dispatch(ParentCtx, g)])
    else Run(o, g, env, 0, None)
  }

  function Then(ds: seq<Dispatch>, r: Outcome): Outcome
  {
    Outcome(r.err, ds + r.dispatches)
  }

  /** The attempt loop of the interceptor, for a merged policy `callOpts`
      and the gRPC options `grpcOpts`; its outcome is `Run` from attempt 0. */
  method AttemptLoop(callOpts: RetryOptions, grpcOpts: seq<GrpcCallOption>, env: Env)
    returns (err: Option<Error>, dispatches: seq<Dispatch>)
    ensures Outcome(err, dispatches) == Run(callOpts, grpcOpts, env, 0, None)
  {
    ghost var whole := Run(callOpts, grpcOpts, env, 0, None);
    var lastErr: Option<Error> := None;
    dispatches := [];
    var attempt: nat := 0;
    while attempt < callOpts.max
      invariant attempt <= callOpts.max
      invariant whole == Then(dispatches, Run(callOpts, grpcOpts, env, attempt, lastErr))
      decreases callOpts.max - attempt
    {
      RunStep(callOpts, grpcOpts, env, attempt, lastErr);
      var w := WaitRetryBackoff(attempt, callOpts, env.wait(attempt));
      if w.Some? {
        err := w;
        return;
      }
      var callCtx := AttemptContext(callOpts, attempt);
      dispatches := dispatches + [Dispatch(callCtx, grpcOpts)];
      lastErr := env.invoker(attempt);
      if lastErr.None? {
        err := None;
        return;
      }
      if IsContextError(lastErr.value) {
        if env.parentErr(attempt).Some? {
          err := lastErr;
          return;
        } else {
          attempt := attempt + 1;
          continue;
        }
      }
      if !IsRetriable(lastErr.value, callOpts) {
        err := lastErr;
        return;
      }
      attempt := attempt + 1;
    }
    err := lastErr;
  }

  /** The interceptor `UnaryClientRetry(optFuncs...)` returns, run on one
      call: `optFuncs` are merged into the defaults, then the call's own
      retry options into that. A parent context that is done before the
      call still gets the first invoker call: it is only consulted after an
      attempt fails, or in a backoff wait, which attempt 0 never makes. */
  method UnaryClientRetry(optFuncs: seq<CallOption>, jittered: BackoffFunc, opts: seq<GrpcCallOption>, env: Env)
    returns (err: Option<Error>, dispatches: seq<Dispatch>)
    ensures Outcome(err, dispatches) == RetrySpec(ApplyAll(DefaultOptions(jittered), optFuncs), opts, env)
    ensures ApplyAll(ApplyAll(DefaultOptions(jittered), optFuncs), RetryOptionsOf(opts)).max == 0 ==>
              err == env.invoker(0) && dispatches == [Dispatch(ParentCtx, PlainOptions(opts))]
    ensures ApplyAll(ApplyAll(DefaultOptions(jittered), optFuncs), RetryOptionsOf(opts)).max > 0 ==>
              |dispatches| <= ApplyAll(ApplyAll(DefaultOptions(jittered), optFuncs), RetryOptionsOf(opts)).max
  {
    var initOpts := MergeCallOptions(DefaultOptions(jittered), optFuncs);
    var grpcOpts, retryOpts := SplitCallOptions(opts);
    var callOpts := MergeCallOptions(initOpts, retryOpts);
    if callOpts.max == 0 {
      err := env.invoker(0);
      dispatches := [Dispatch(ParentCtx, grpcOpts)];
      return;
    }
    err, dispatches := AttemptLoop(callOpts, grpcOpts, env);
  }

  // ---------------------------------------------------------------------
  // Consequences for whole calls

  /** With retries disabled (the default), the invoker is called once, with
      the parent context and the non-retry options, and its result is
      returned. */
  lemma DisabledIsPassThrough(init: RetryOptions, opts: seq<GrpcCallOption>, env: Env)
    requires ApplyAll(init, RetryOptionsOf(opts)).max == 0
    ensures RetrySpec(init, opts, env) == Outcome(env.invoker(0), [Dispatch(ParentCtx, PlainOptions(opts))])
  {
  }

  /** An invoker that always returns a retryable code gets exactly `max`
      calls and its last error is returned. */
  lemma {:induction false} AlwaysRetryableExhausts(init: RetryOptions, opts: seq<GrpcCallOption>, env: Env)
    requires ApplyAll(init, RetryOptionsOf(opts)).max > 0
    requires forall j :: env.wait(j) == Ticked
    requires forall j :: env.invoker(j).Some? && IsRetriable(env.invoker(j).value, ApplyAll(init, RetryOptionsOf(opts)))
    ensures |RetrySpec(init, opts, env).dispatches| == ApplyAll(init, RetryOptionsOf(opts)).max
    ensures RetrySpec(init, opts, env).err == env.invoker(ApplyAll(init, RetryOptionsOf(opts)).max - 1)
  {
    var o := ApplyAll(init, RetryOptionsOf(opts));
    RunExhausts(o, PlainOptions(opts), env, 0, None);
  }

  /** A first attempt that fails with a code outside the retryable set (and
      not a context error) is the only attempt. */
  lemma NonRetriableStopsAtOnce(init: RetryOptions, opts: seq<GrpcCallOption>, env: Env)
    requires ApplyAll(init, RetryOptionsOf(opts)).max > 0
    requires env.invoker(0).Some?
    requires !IsContextError(env.invoker(0).value)
    requires CodeOf(env.invoker(0).value) !in ApplyAll(init, RetryOptionsOf(opts)).codes
    ensures RetrySpec(init, opts, env) ==
              Outcome(env.invoker(0), [Dispatch(AttemptContext(ApplyAll(init, RetryOptionsOf(opts)), 0), PlainOptions(opts))])
  {
    var o := ApplyAll(init, RetryOptionsOf(opts));
    RunStopsAtFirstFinal(o, PlainOptions(opts), env, 0, None, 0);
  }

  /** A context error while the parent context is done ends the call with
      that error, even if its code is in the retryable set. */
  lemma {:induction false} ParentErrorStops(o: RetryOptions, g: seq<GrpcCallOption>, env: Env, k: nat)
    requires k < o.max
    requires CarriesOn(o, env, 0, k)
    requires WaitRetryBackoff(k, o, env.wait(k)).None?
    requires env.invoker(k).Some? && IsContextError(env.invoker(k).value)
    requires env.parentErr(k).Some?
    ensures Run(o, g, env, 0, None) == Outcome(env.invoker(k), Dispatches(o, g, 0, k + 1))
  {
    RunStopsAtFirstFinal(o, g, env, 0, None, k);
  }

  /** Success ends the loop at once, with no error. */
  lemma {:induction false} SuccessStops(o: RetryOptions, g: seq<GrpcCallOption>, env: Env, k: nat)
    requires k < o.max
    requires CarriesOn(o, env, 0, k)
    requires WaitRetryBackoff(k, o, env.wait(k)).None?
    requires env.invoker(k).None?
    ensures Run(o, g, env, 0, None) == Outcome(None, Dispatches(o, g, 0, k + 1))
  {
    RunStopsAtFirstFinal(o, g, env, 0, None, k);
  }
}
