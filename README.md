# xmiddleware call-handling core, modelled in Dafny

This project models five parts of the gRPC middleware xmiddleware and proves properties of each.

- **Client retry interceptor** (`interceptor/retry.go`):
  - a retry policy merged from defaults and call options;
  - the call options split into gRPC options and retry options;
  - error classification;
  - the backoff wait decision;
  - the per-attempt context;
  - the attempt loop of `UnaryClientRetry`.
- **Interceptor chains** (`interceptor/chain.go`): server and client interceptors folded around a handler or invoker, so that the first interceptor is outermost.
- **Concurrency throttler** (`interceptor/throttler.go`): a primary token pool and a backlog token pool. A call holds a backlog token while it queues for a primary token, and holds both while its handler runs.
- **Fixed-window rate limiter** (`interceptor/ratelimit.go`) and the `RateLimit` interceptor that refuses calls.
- **Request metadata helpers** (`utils/meta.go`):
  - keys are lowercased;
  - values of keys ending in `-bin` are base64 encoded (section 4 of RFC 4648);
  - `Get` and `Set` work on the context's metadata map.

Modules, one per file:

- `Grpc` (`grpc.dfy`): status codes, errors and replies.
- `Meta` (`meta.dfy`)
- `Retry` (`retry.dfy`)
- `Chain` (`chain.dfy`)
- `Throttle` (`throttler.dfy`)
- `RateLimit` (`ratelimit.dfy`)

How each source construct is modelled:

- **Inputs instead of effects.** Time, randomness, `select` statements and the invoker become parameters.
  - **Retry:** an `Env` gives, for each attempt:
    - the invoker's result;
    - the parent context's `Err()`;
    - which case of the backoff `select` fires.
  - **Throttler:** a `Race` value names the case of each `select` that fires.
  - **Rate limiter:** the clock reading of each call is a parameter.
- **Loops stay loops.** The source's loops are `while`/`for` loops proved against specification functions:
  - `mergeCallOptions`, `splitCallOptions`, the retry attempt loop;
  - both chain builders;
  - the throttler's fill loop.
- **State updated in place becomes a class.**
  - the metadata map;
  - the throttler's channels;
  - the rate limiter's fields;
  - the package globals of `ratelimit.go`.

## Model

| member | source | states |
|---|---|---|
| Meta.Lower | utils/meta.go:43 | the lowercased key has the same length, and each character is the ASCII lowercase of the original |
| Meta.LowerIsLowered | utils/meta.go:43 | lowering yields a string with no upper-case letter, and a string already in lower case is left unchanged |
| Meta.LowerIdempotent | utils/meta.go:43 | lowering twice is lowering once |
| Meta.Utf8 | utils/meta.go:45 | `[]byte(v)` takes between one and four bytes per character |
| Meta.Base64RoundTrip | utils/meta.go:45 | decoding the base64 text of any byte string gives back those bytes |
| Meta.Base64Length | utils/meta.go:45 | base64 text has four characters for every started group of three bytes |
| Meta.Base64Alphabet | utils/meta.go:45 | base64 text is made of the 64 alphabet characters, with the padding '=' only in the last two places |
| Meta.Encode | utils/meta.go:42-49 | `encode` always returns the lowercased key; the value is base64 of its bytes iff that key ends in "-bin", otherwise it is unchanged |
| Meta.EncodeKeepsLoweredKey | utils/meta.go:43 | a key already in lower case is returned as it is |
| Meta.EncodeBinValueDecodes | utils/meta.go:44-47 | the value stored under a "-bin" key decodes to the original value's bytes |
| Meta.Get | utils/meta.go:15-29 | on a context: a value is found iff the context has metadata, the lowercased key is present and holds exactly one value; that value is returned, otherwise ("", false) |
| Meta.Lookup | utils/meta.go:15-29 | `Get` finds a value iff there is metadata, the lowercased key is present and its list has exactly one value; it then returns that value, and otherwise ("", false) |
| Meta.Set | utils/meta.go:31-40 | on a context with metadata, the same context is returned and only the encoded key's entry changes, to `[v']`; without metadata, a new context with fresh metadata holding the pair is returned |
| Meta.SetThenGet | utils/meta.go:15-48 | after `Set` of a non-"-bin" key, `Get` with any key of the same lowercase form returns (v, true) |
| Meta.SetBinThenGet | utils/meta.go:15-48 | after `Set` of a "-bin" key, `Get` returns the base64 text, which decodes to the value's bytes |
| Meta.Pairs | utils/meta.go:34 | the fresh metadata holds exactly the encoded pair, the same entry `Set` writes into existing metadata |
| Meta.PairsThenGet | utils/meta.go:15-35 | after `Set` on a context without metadata, `Get` of the same lowercase key returns the value for a plain key and its base64 text for a "-bin" key; every other key is absent |
| Meta.SetLeavesOtherKeys | utils/meta.go:37-38 | `Set` leaves what `Get` returns for every other lowercase key unchanged |
| Retry.DefaultOptions | interceptor/retry.go:22-29 | the defaults: retries disabled (`max` 0), no per-attempt timeout, the attempt header on, ResourceExhausted and Unavailable retryable, and the given jittered backoff |
| Retry.Apply | interceptor/retry.go:42-73 | an option's `applyFunc` writes only its own field; every other field, and always `includeHeader`, keeps its value |
| Retry.WithRetryMax | interceptor/retry.go:51-55 | the option writes `max` and nothing else |
| Retry.WithRetryDisable | interceptor/retry.go:47-49 | the option sets `max` to 0 and nothing else |
| Retry.WithRetryBackoff | interceptor/retry.go:57-61 | the option writes the backoff function and nothing else |
| Retry.WithRetryCodes | interceptor/retry.go:63-67 | the option writes the retryable codes and nothing else |
| Retry.WithPerRetryTimeout | interceptor/retry.go:69-73 | the option writes the per-attempt timeout and nothing else |
| Retry.MergeCallOptions | interceptor/retry.go:82-92 | with no options the policy itself is returned; otherwise the result is the policy with every option applied in order |
| Retry.MergeKeepsUnwritten | interceptor/retry.go:82-92 | a field that no option writes keeps the base policy's value |
| Retry.MergeLastWriterWins | interceptor/retry.go:88-90 | the last option that writes a field decides that field |
| Retry.SplitCallOptions | interceptor/retry.go:94-103 | the two outputs are the non-retry options and the retry options, each in input order |
| Retry.SplitIsPartition | interceptor/retry.go:94-103 | the split is a partition: reading the input in order, each option is the next element of exactly one output |
| Retry.PartitionFacts | interceptor/retry.go:94-103 | such a partition is unique, and its sizes add up to the input's; no retry option is among the gRPC ones |
| Retry.Contains | interceptor/retry.go:153-158 | the scan finds a code iff it is in the list |
| Retry.IsRetriable | interceptor/retry.go:148-159 | an error is retriable iff it is not a context error and its code is among the policy's codes |
| Retry.IsContextError | interceptor/retry.go:177-179 | an error counts as a context error iff it is a status error with code DeadlineExceeded or Canceled |
| Retry.ConvToGrpcErr | interceptor/retry.go:192-201 | the result is a status error carrying the context error's text, with code DeadlineExceeded for a deadline, Canceled for cancellation and Unknown otherwise |
| Retry.RawContextErrorIsNotContextError | interceptor/retry.go:148-179 | a context error that is not a status error has code Unknown, so `isContextError` is false for it, and it is retriable under a policy iff Unknown is among that policy's codes |
| Retry.WaitRetryBackoff | interceptor/retry.go:161-175 | attempt 0 never waits; the wait fails iff the backoff is positive and the parent finishes first; the failure is the converted parent error |
| Retry.DecimalRoundTrip | interceptor/retry.go:187 | the attempt header is all digits with no leading zero and denotes the attempt number |
| Retry.AttemptContext | interceptor/retry.go:181-190 | the timeout is applied iff `perCallTimeout != 0`; the header is attached iff `attempt > 0` and `includeHeader`, and then it holds the attempt number |
| Retry.AttemptKeyIsPlain | interceptor/retry.go:17 | "x-retry-attempty" is already lower case and is not a "-bin" key, so it is stored as it is |
| Retry.AttachAttempt | interceptor/retry.go:186-188 | `Set` of the decimal attempt number: existing metadata is the object written to, and its new entries are the old ones with "x-retry-attempty" set to that number; without metadata, fresh metadata holds only that entry; `Get` of any spelling of the key reads the number, and every other key reads as before |
| Retry.HeaderReadsBack | interceptor/retry.go:186-188 | metadata with the attempt entry set reads it back under every spelling of the key and reads every other key as before |
| Retry.PerCallContext | interceptor/retry.go:181-190 | it makes the context that the loop records as `AttemptContext(o, attempt)`: the timeout is added iff one is configured; when that context has a header, the parent's metadata (or fresh metadata) gets the attempt entry and `Get` of the key reads the header; otherwise the metadata is untouched; every other key reads as before, and a parent's own metadata is shared with the result |
| Retry.Classify | interceptor/retry.go:124-142 | an attempt must stop exactly when it failed with a context error while the parent is done, or with a non-context error whose code is outside the policy's codes |
| Retry.ClassifyMeaning | interceptor/retry.go:124-142 | an attempt carries on iff it failed with a context error while the parent is not done, or with a retriable error |
| Retry.Run | interceptor/retry.go:116-144 | at most `max` invoker calls; each with that attempt's context and the gRPC options; each after a wait that passed; every call but the last carried on |
| Retry.RunStopsAtFirstFinal | interceptor/retry.go:117-142 | the first attempt that succeeds or must stop ends the call with its result, after exactly the attempts up to it |
| Retry.RunExhausts | interceptor/retry.go:117-144 | when every attempt carries on, exactly `max` calls are made and the last error is returned |
| Retry.RunWaitAborts | interceptor/retry.go:118-120 | when the parent finishes during the wait before attempt `k`, the converted parent error is returned and attempt `k` is not made |
| Retry.AttemptLoop | interceptor/retry.go:116-144 | the loop's outcome (returned error and invoker calls) is exactly `Run` from attempt 0 |
| Retry.UnaryClientRetry | interceptor/retry.go:107-146 | the loop's outcome is the specification's; with `max == 0` it is exactly one call with the parent context and the gRPC options, with its result returned; otherwise there are at most `max` calls |
| Retry.DisabledIsPassThrough | interceptor/retry.go:112-114 | with retries disabled the call is a single pass-through dispatch |
| Retry.AlwaysRetryableExhausts | interceptor/retry.go:140-144 | an invoker that always returns a retriable code gets exactly `max` calls, and its last error is returned |
| Retry.NonRetriableStopsAtOnce | interceptor/retry.go:140-142 | a first error whose code is outside the set, and which is not a context error, is the only call and is returned |
| Retry.ParentErrorStops | interceptor/retry.go:129-133 | a context error while the parent is done ends the call with that error, whatever the code set says |
| Retry.SuccessStops | interceptor/retry.go:124-126 | the first success ends the call with no error |
| Chain.BuildServerChain | interceptor/chain.go:20-24 | the built handler runs the interceptor on its arguments, with the captured info and `n` as its next |
| Chain.UnaryServerChain | interceptor/chain.go:9-17 | the loop builds the chain with the first interceptor outermost; with no interceptors the handler is called directly; otherwise the result is the first interceptor's, given the same info and the chain of the rest as next |
| Chain.BuildClientChain | interceptor/chain.go:42-46 | the built invoker runs the interceptor on the arguments it is given, with `next` as its invoker |
| Chain.UnaryClientChain | interceptor/chain.go:32-40 | the same for the client chain and its invoker |
| Chain.ServerChainNests | interceptor/chain.go:12-24 | logging stages nest around the inner chain: their befores in order (each with the same info), the inner trace, then their afters reversed |
| Chain.ServerChainOrder | interceptor/chain.go:9-24 | for logging interceptors I0..In-1 the trace is I0b..In-1b, the handler's trace, In-1a..I0a |
| Chain.ShortCircuit | interceptor/chain.go:20-24 | a stage that does not call its next hides every inner stage and the handler: the trace is the outer marks around that stage's own result |
| Chain.ClientChainNests | interceptor/chain.go:35-46 | logging client stages each receive the call's own arguments and nest around the inner chain: their befores in order, the inner trace, then their afters reversed |
| Chain.ClientChainOrder | interceptor/chain.go:32-46 | for logging client interceptors I0..In-1 the trace is I0b..In-1b, the invoker's trace, In-1a..I0a |
| Chain.ClientShortCircuit | interceptor/chain.go:42-46 | a client stage that does not call its invoker hides every inner stage and the invoker: the trace is the outer marks around that stage's own result |
| Throttle.MovePreserves | interceptor/throttler.go:47-62 | each take or return keeps every token accounted for; a deferred send never finds its channel full |
| Throttle.AnyInterleavingAccounted | interceptor/throttler.go:45-70 | under any interleaving of the calls' channel operations, at most `limit` handlers run and at most `limit + backlogLimit` calls are in flight |
| Throttle.PathRestores | interceptor/throttler.go:47-65 | each of the paths through `Throttle` gives back every token it took |
| Throttle.Throttler.constructor | interceptor/throttler.go:19-43 | needs `limit >= 1` and `backlogLimit >= 0`; the fill loop leaves `limit` primary tokens and `limit + backlogLimit` backlog tokens |
| Throttle.Throttler.Do | interceptor/throttler.go:47-62 | one channel operation, keeping the tokens accounted for |
| Throttle.Throttler.Throttle | interceptor/throttler.go:45-71 | cancellation while waiting or queued returns the context's error; the timer returns ResourceExhausted "Concurrent RPC limit exceeded"; on dispatch the handler's reply is returned unchanged; the pool moves it makes are exactly `Path(sel)`, a legal run from the starting pools that ends in the new state; the pools end as they began |
| RateLimit.Since | interceptor/ratelimit.go:31 | `time.Since` is the clock difference, saturated to the int64 range of a Duration |
| RateLimit.WindowStep | interceptor/ratelimit.go:31-38 | past the interval the call is allowed, the count reset to 0 and the tick moved to now; inside it the count goes up by one with uint wrap-around, the tick is kept, and the call is allowed iff the new count is below `MaxCount` |
| RateLimit.StepResets | interceptor/ratelimit.go:31-35 | more than `Interval` after the last tick, the step allows the call, resets the count and moves the tick to now |
| RateLimit.StepCounts | interceptor/ratelimit.go:37-38 | inside the window the step increments the count, and allows iff the new count is below `MaxCount` |
| RateLimit.CarriedInWindow | interceptor/ratelimit.go:37-38 | with the state kept, inside one window the k-th further call is allowed iff the count it reaches is below `MaxCount` |
| RateLimit.WindowBurst | interceptor/ratelimit.go:31-38 | with the state kept, a window that opens with a reset allows the reset call and then the calls whose new count is below `MaxCount`, so `MaxCount` calls when `MaxCount >= 1` |
| RateLimit.RateLimiter.constructor | options.go:31-34 | the limiter built from `Interval` and `MaxCount` has count 0 and the zero time as its last tick |
| RateLimit.RateLimiter.Allowed | interceptor/ratelimit.go:27-39 | the decision is one window step from the current state, and the limiter is left unchanged (value receiver) |
| RateLimit.RateLimiter.AllowedShared | interceptor/ratelimit.go:27-39 | the same step with the new state kept |
| RateLimit.AsWrittenAllowsEverything | interceptor/ratelimit.go:27-39 | a limiter as built by options.go allows every call, whatever its `MaxCount` |
| RateLimit.SharedLimitsBurst | interceptor/ratelimit.go:31-38 | a new limiter that keeps its state cuts a burst inside one window off after `MaxCount` calls |
| RateLimit.Globals.InitRateLimiter | interceptor/ratelimit.go:41-45 | only the first call stores a pointer to a copy of the limiter; later calls leave the stored limiter unchanged |
| RateLimit.Globals.RateLimit | interceptor/ratelimit.go:47-53 | a refused call returns Internal "rate limited" without the handler's result; an allowed call returns the handler's reply unchanged |

## Left out

- `BackoffUniformRandom` (retry.go:75-80): it uses floating point and `math/rand`. The backoff is an arbitrary function from attempt number to duration, and the default one is the `jittered` parameter of `UnaryClientRetry`.
- Real time and real waiting are not modelled:
  - the `time.Tick` and `time.NewTimer` waits;
  - `context.WithTimeout` deadline propagation;
  - Go's random choice between ready `select` cases.

  What each wait or race ends with is an input. A per-attempt timeout is modelled as recorded on the derived context.
- The throttler's concurrency is modelled as token accounting only:
  - `Throttle` runs as one step of a single call;
  - the bound on concurrent handlers is proved for any interleaving of the calls' individual channel operations (`AnyInterleavingAccounted`).

  Goroutine scheduling and blocking are not modelled.
- `Throttle.Throttler.constructor`: the panics for `limit < 1` and `backlogLimit < 0` are preconditions, because a panic is not a result.
- The rate limiter's mutex; every call to `Allowed` is modelled as running alone.
- `RateLimit.Globals.RateLimit`: requires `InitRateLimiter` to have run first. Otherwise the source dereferences a nil pointer and panics.
- `Meta.Lower`: covers only the ASCII letters of `strings.ToLower`; other Unicode case mappings are not modelled.
- `Meta.Utf8`: assumes the string is valid Unicode text; Go strings holding invalid UTF-8 are not modelled.
- `Meta.Pairs` (meta.go:34): `metadata.Pairs` is grpc-go code, so only its result is modelled. That result is the one the grpc-go metadata package of the `FromContext`/`NewContext` API gives: the pair passes through the same encoding as `encode`, with the key lowercased and the value base64 under a "-bin" key. A grpc-go release that stores the value as given is not modelled.
- `Retry.ConvToGrpcErr`: `grpc.Errorf` uses the context error's text as a format string, and the model carries that text unchanged. So the message is reproduced only for texts without '%'; for example, a `CtxOther` text "%d" would come out as "%!d(MISSING)".
- `RateLimit.WindowStep`: `Allowed` reads the clock twice, once in `time.Since` (ratelimit.go:31) and once in `time.Now()` (ratelimit.go:32). The model uses one reading `now` for both, so a tick that moved between the two reads is not modelled.
- `Throttle.Throttler.constructor`: in Go, `limit+backlogLimit` (throttler.go:30,35) is an `int` sum that can overflow, and `make(chan …)` then panics. The model's unbounded integers leave this case out.
- `Retry.PerCallContext`: the parent context and the per-attempt contexts are modelled by their timeouts and metadata only. Other context values and the deadline clock are not modelled.
- The invoker's call arguments other than the context and options (`method`, `req`, `reply`, `cc`) are passed through unchanged by the retry interceptor. The model records each dispatch by its context and options only.
- `mergeCallOptions` returns a pointer to the policy itself or to a new copy. Whether a result is that same object is not modelled, since policies are values here. Nothing in the loop mutates a policy after merging, so the values are the same.
- Logging (`log.Warnf`, `log.Infof`): left out; no result depends on it.
- The other interceptors and the server bootstrap are not part of this model:
  - `interceptor/monitor.go`, `interceptor/recovery.go` and `interceptor/logging.go`;
  - `server.go` and the option closures of `options.go`;
  - the exception is the limiter literal at options.go:31-34, which `RateLimit.RateLimiter.constructor` models.

## Findings

| source | as written | input that shows it | evidently intended | confidence | as-written member | corrected member |
|---|---|---|---|---|---|---|
| interceptor/ratelimit.go:27 | `Allowed` has a value receiver, so its updates of `count` and `lastTick` are made on a copy and lost. The limiter built at options.go:31-34 keeps the zero time as its last tick, `time.Since` of it saturates at the largest Duration, and every call is allowed | `Interval` of one second, `MaxCount == 1`, any number of calls in the same second: all are allowed | a pointer receiver, so that a window allows `MaxCount` calls | high (not executed) | RateLimit.RateLimiter.Allowed, RateLimit.AsWrittenAllowsEverything | RateLimit.RateLimiter.AllowedShared, RateLimit.SharedLimitsBurst |

`RateLimit.Globals.RateLimit` calls the as-written `Allowed`, because it models the interceptor as the code has it. The corrected `AllowedShared` and its lemmas are the limiter as intended.
