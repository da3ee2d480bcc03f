/** The process lifecycle: boot, run the HTTP server until cancellation or a
    serve failure, then shut down the server and the store client, and report
    every error collected on the way. The server's goroutine and the select it
    races against are reduced to the value `run` returns. */
module Lifecycle {

  import opened Base
  import opened Errors

  /** The contexts the lifecycle hands to its phases. */
  datatype Context =
    | Background
    | WithCancel(parent: Context, cancelled: bool)
    | WithTimeout(parent: Context, timeout: int)

  /** `ctx.Err()`: Canceled once the context or one of its parents is
      cancelled. A deadline's expiry is not modelled. */
  function CtxErr(ctx: Context): Option<Error>
  {
    match ctx
    case Background => None
    case WithCancel(parent, cancelled) =>
      if CtxErr(parent).Some? then CtxErr(parent) else if cancelled then Some(Canceled) else None
    case WithTimeout(parent, _) => CtxErr(parent)
  }

  /** Each phase the lifecycle starts, with the context it passes. */
  datatype Action =
    | Boot(ctx: Context)
    | Serve(ctx: Context)
    | ShutdownServer(ctx: Context)
    | DisconnectStore(ctx: Context)

  /** `boot`: connecting, pinging and the setup routines are all commented out,
      so it always succeeds; in particular the unique email index is never
      created. */
  function BootStub(): Option<Error>
  {
    None
  }

  /** `run`: what it returns, given the error `Serve` returned (None while it
      is still serving, or when it returned nil), the error of the run context
      (None while it is not cancelled), and which case the select takes when
      both are ready (`preferServe`). None means `run` is still waiting. A serve
      error that is `ErrServerClosed` is never sent. */
  function RunPhase(serve: Option<Error>, ctxErr: Option<Error>, preferServe: bool): (r: Option<Error>)
    ensures r.None? <==> ctxErr.None? && (serve.None? || Is(serve.value, ServerClosed))
    ensures r.Some? ==> r == ctxErr || (serve.Some? && r == Some(Wrapped("http server", serve.value)))
  {
    var failure := if serve.Some? && !Is(serve.value, ServerClosed) then Some(Wrapped("http server", serve.value)) else None;
    if failure.Some? && (ctxErr.None? || preferServe) then failure
    else ctxErr
  }

  /** The errors `shutdown` collects, in the order it makes its two calls. */
  function ShutdownErrors(serverErr: Option<Error>, disconnectErr: Option<Error>): seq<Error>
  {
    (if serverErr.Some? then [Wrapped("shutdown server", serverErr.value)] else [])
      + (if disconnectErr.Some? then [Wrapped("mongo disconnect", disconnectErr.value)] else [])
  }

  /** The entries `Run` reports after a successful boot: the run error unless it
      is a cancellation, then the shutdown error. */
  function RunReport(runErr: Error, shutdownErr: Option<Error>): seq<Error>
  {
    (if Is(runErr, Canceled) then [] else [Wrapped("run", runErr)])
      + (if shutdownErr.Some? then [Wrapped("shutdown", shutdownErr.value)] else [])
  }

  /** `shutdown`: stops the server and disconnects the store client, attempting
      both whatever the first returns; `serverErr` and `disconnectErr` are what
      those two calls return. */
  method Shutdown(ctx: Context, serverErr: Option<Error>, disconnectErr: Option<Error>)
    returns (err: Option<Error>, trace: seq<Action>)
    ensures trace == [ShutdownServer(ctx), DisconnectStore(ctx)]
    ensures err == Join(ShutdownErrors(serverErr, disconnectErr))
    ensures err.None? <==> serverErr.None? && disconnectErr.None?
    ensures err.Some? ==> |err.value.errs| <= 2
    ensures serverErr.Some? ==> err.Some? && err.value.errs[0] == Wrapped("shutdown server", serverErr.value)
    ensures disconnectErr.Some? ==> err.Some? && err.value.errs[|err.value.errs| - 1] == Wrapped("mongo disconnect", disconnectErr.value)
  {
    var shutdownErrs: seq<Error> := [];
    trace := [ShutdownServer(ctx)];
    if serverErr.Some? {
      shutdownErrs := shutdownErrs + [Wrapped("shutdown server", serverErr.value)];
    }
    trace := trace + [DisconnectStore(ctx)];
    if disconnectErr.Some? {
      shutdownErrs := shutdownErrs + [Wrapped("mongo disconnect", disconnectErr.value)];
    }
    assert shutdownErrs == ShutdownErrors(serverErr, disconnectErr);
    err := Join(shutdownErrs);
  }

  /** `Run`, given the outcome of each phase: `bootErr` what boot returns,
      `runErr` what `run` returns, `serverErr` and `disconnectErr` what the two
      shutdown calls return. */
  method Run(
    parent: Context, shutdownTimeout: int,
    bootErr: Option<Error>, runErr: Error, serverErr: Option<Error>, disconnectErr: Option<Error>)
    returns (result: Option<Error>, trace: seq<Action>)
    ensures var runCtx := WithCancel(parent, false);
      var shutdownCtx := WithTimeout(Background, shutdownTimeout);
      && (bootErr.Some? ==> result == Some(Wrapped("boot", bootErr.value)) && trace == [Boot(runCtx)])
      && (bootErr.None? ==>
            && trace == [Boot(runCtx), Serve(runCtx), ShutdownServer(shutdownCtx), DisconnectStore(shutdownCtx)]
            && result == Join(RunReport(runErr, Join(ShutdownErrors(serverErr, disconnectErr)))))
    ensures bootErr.None? ==>
      (result.None? <==> Is(runErr, Canceled) && serverErr.None? && disconnectErr.None?)
    ensures bootErr.None? && result.Some? ==> 1 <= |result.value.errs| <= 2
    ensures bootErr.None? && !Is(runErr, Canceled) ==> result.Some? && result.value.errs[0] == Wrapped("run", runErr)
  {
    var ctx := WithCancel(parent, false);
    trace := [Boot(ctx)];
    if bootErr.Some? {
      return Some(Wrapped("boot", bootErr.value)), trace;
    }
    var appErrs: seq<Error> := [];
    trace := trace + [Serve(ctx)];
    if !Is(runErr, Canceled) {
      appErrs := appErrs + [Wrapped("run", runErr)];
    }
    var shutdownCtx := WithTimeout(Background, shutdownTimeout);
    var shutdownErr, shutdownTrace := Shutdown(shutdownCtx, serverErr, disconnectErr);
    trace := trace + shutdownTrace;
    if shutdownErr.Some? {
      appErrs := appErrs + [Wrapped("shutdown", shutdownErr.value)];
    }
    assert appErrs == RunReport(runErr, shutdownErr);
    result := Join(appErrs);
  }

  /** `Run` with the repository's `boot`, which cannot fail: every run goes on
      to serve and to shut down, and the report holds only run and shutdown
      errors. */
  method RunAsWritten(
    parent: Context, shutdownTimeout: int, runErr: Error, serverErr: Option<Error>, disconnectErr: Option<Error>)
    returns (result: Option<Error>, trace: seq<Action>)
    ensures var runCtx := WithCancel(parent, false);
      var shutdownCtx := WithTimeout(Background, shutdownTimeout);
      trace == [Boot(runCtx), Serve(runCtx), ShutdownServer(shutdownCtx), DisconnectStore(shutdownCtx)]
    ensures result == Join(RunReport(runErr, Join(ShutdownErrors(serverErr, disconnectErr))))
    ensures result.None? <==> Is(runErr, Canceled) && serverErr.None? && disconnectErr.None?
  {
    result, trace := Run(parent, shutdownTimeout, BootStub(), runErr, serverErr, disconnectErr);
  }

  /** The shutdown context is fresh: however cancelled the run context is, the
      shutdown phase starts with a context that is not, bounded only by the
      shutdown timeout. */
  lemma ShutdownContextIsFresh(parent: Context, shutdownTimeout: int)
    ensures CtxErr(WithTimeout(Background, shutdownTimeout)) == None
    ensures CtxErr(WithCancel(parent, false)) == CtxErr(parent)
  {
  }

  /** A run that ends by cancellation contributes nothing to the report: when
      Serve returned nil, `ErrServerClosed` or nothing yet, `run` returns the
      context's cancellation, and when its genuine failure loses the race it
      does too. A genuine serve failure that `run` receives is reported. */
  lemma RunOutcomes(serve: Option<Error>, signalled: bool, preferServe: bool, parent: Context)
    requires CtxErr(parent) == None
    ensures var ctxErr := CtxErr(WithCancel(parent, signalled));
      var r := RunPhase(serve, ctxErr, preferServe);
      && ((serve.None? || Is(serve.value, ServerClosed)) ==>
            r == ctxErr && (r.Some? ==> RunReport(r.value, None) == []))
      && (serve.Some? && !Is(serve.value, ServerClosed) && (!signalled || preferServe) ==>
            r == Some(Wrapped("http server", serve.value)))
      && (serve.Some? && !Is(serve.value, ServerClosed) && signalled && !preferServe ==>
            r == Some(Canceled) && RunReport(r.value, None) == [])
  {
  }

  /** The report is nil exactly when there is neither a run error nor a
      shutdown error, holds at most the run error then the shutdown error, and
      never loses a shutdown error to a run error. */
  lemma ReportShape(runErr: Error, serverErr: Option<Error>, disconnectErr: Option<Error>)
    ensures var shutdownErr := Join(ShutdownErrors(serverErr, disconnectErr));
      var report := RunReport(runErr, shutdownErr);
      && |report| <= 2
      && (report == [] <==> Is(runErr, Canceled) && serverErr.None? && disconnectErr.None?)
      && (shutdownErr.Some? ==> report[|report| - 1] == Wrapped("shutdown", shutdownErr.value))
      && (forall t :: Leaf(t) && serverErr.Some? && Is(serverErr.value, t) ==>
            Join(report).Some? && Is(Join(report).value, t))
      && (forall t :: Leaf(t) && disconnectErr.Some? && Is(disconnectErr.value, t) ==>
            Join(report).Some? && Is(Join(report).value, t))
  {
    var errs := ShutdownErrors(serverErr, disconnectErr);
    var shutdownErr := Join(errs);
    var report := RunReport(runErr, shutdownErr);
    forall t | Leaf(t) && ((serverErr.Some? && Is(serverErr.value, t)) || (disconnectErr.Some? && Is(disconnectErr.value, t)))
      ensures Join(report).Some? && Is(Join(report).value, t)
    {
      var i := if serverErr.Some? && Is(serverErr.value, t) then 0 else |errs| - 1;
      assert Is(errs[i], t);
      assert Is(Joined(errs), t);
      assert Is(report[|report| - 1], t);
    }
  }
}
