/** control/dispatcher.py: the control gate and the idempotency cache. */
module Dispatcher {
  import opened Prelude
  import opened StoragePaths
  import opened Commands

  datatype DispatchContext = DispatchContext(currentMode: Text, modeContext: Text, receipt: Option<ModeSwitchReceipt>)
  {
    predicate ControlIsUnlockedFor(scope: CommandScope) {
      && receipt.Some?
      && currentMode != OBSERVATION_ONLY
      && receipt.value.IsActiveFor(scope, currentMode, modeContext)
    }
  }

  /** _deny_reason: the refused action, if the gate refuses. */
  function DenyReason(c: Command, context: DispatchContext): Option<Action> {
    if c.action.Observe? || c.action.ModeSwitch? then None
    else if IsControl(c.action) && !context.ControlIsUnlockedFor(c.scope) then Some(c.action)
    else None
  }

  /** What the handler does with an allowed command: return a result or raise. */
  datatype HandlerOutcome<+R> = Returned(value: R) | Raised(error: Error)

  datatype DispatchResult<+R> = DispatchResult(receiptId: nat, command: Command, denied: Option<Action>,
                                               handlerResult: Option<R>, replay: bool)

  datatype Cached<+R> = Cached(receiptId: nat, fingerprint: Fingerprint, denied: Option<Action>,
                               handlerResult: Option<R>)
  {
    function ToResult(c: Command): DispatchResult<R> {
      DispatchResult(receiptId, c, denied, handlerResult, true)
    }
  }

  type Cache<+R> = map<Text, Cached<R>>

  /** One call of dispatch, with a fresh receipt id and what the handler would do if invoked. */
  datatype Call<+R> = Call(command: Command, context: DispatchContext, freshId: nat, answer: HandlerOutcome<R>)

  /** completed lists the commands whose handler ran to its end. */
  datatype Dispatching<+R> = Dispatching(cache: Cache<R>, completed: seq<Command>)

  function Remember<R>(cache: Cache<R>, c: Command, r: DispatchResult<R>): Cache<R> {
    if c.idempotencyKey.None? then cache
    else cache[c.idempotencyKey.value := Cached(r.receiptId, SemanticFingerprint(c), r.denied, r.handlerResult)]
  }

  function Dispatch<R>(d: Dispatching<R>, call: Call<R>): (Dispatching<R>, Result<DispatchResult<R>, Error>) {
    var c := call.command;
    if c.idempotencyKey.Some? && c.idempotencyKey.value in d.cache then
      var cached := d.cache[c.idempotencyKey.value];
      (d, if cached.fingerprint != SemanticFingerprint(c) then Err(KeyReused) else Ok(cached.ToResult(c)))
    else
      var denied := DenyReason(c, call.context);
      if denied.Some? then
        var r := DispatchResult(call.freshId, c, denied, None, false);
        (d.(cache := Remember(d.cache, c, r)), Ok(r))
      else if call.answer.Raised? then (d, Err(call.answer.error))
      else
        var r := DispatchResult(call.freshId, c, None, Some(call.answer.value), false);
        (Dispatching(Remember(d.cache, c, r), d.completed + [c]), Ok(r))
  }

  function DispatchAll<R>(d: Dispatching<R>, calls: seq<Call<R>>): Dispatching<R>
    decreases |calls|
  {
    if calls == [] then d else DispatchAll(Dispatch(d, calls[0]).0, calls[1..])
  }

  /** A command dispatcher; the handler it is given is represented by its answer to each call. */
  class CommandDispatcher<R> {
    var cache: Cache<R>
    ghost var completed: seq<Command>

    constructor ()
      ensures cache == map[] && completed == []
    {
      cache, completed := map[], [];
    }

    method DispatchCommand(call: Call<R>) returns (r: Result<DispatchResult<R>, Error>)
      modifies this
      ensures (Dispatching(cache, completed), r) == Dispatch(old(Dispatching(cache, completed)), call)
    {
      var c := call.command;
      if c.idempotencyKey.Some? && c.idempotencyKey.value in cache {
        var cached := cache[c.idempotencyKey.value];
        if cached.fingerprint != SemanticFingerprint(c) {
          return Err(KeyReused);
        }
        return Ok(cached.ToResult(c));
      }
      var denied := DenyReason(c, call.context);
      var result;
      if denied.Some? {
        result := DispatchResult(call.freshId, c, denied, None, false);
      } else {
        if call.answer.Raised? {
          return Err(call.answer.error);
        }
        completed := completed + [c];
        result := DispatchResult(call.freshId, c, None, Some(call.answer.value), false);
      }
      cache := Remember(cache, c, result);
      return Ok(result);
    }
  }

  /* ---- idempotency ---- */

  /** Every keyed completion is cached, and no two completions share a key. */
  ghost predicate CompletedOnce<R(!new)>(d: Dispatching<R>) {
    && (forall i :: 0 <= i < |d.completed| && d.completed[i].idempotencyKey.Some?
          ==> d.completed[i].idempotencyKey.value in d.cache)
    && (forall i, j :: 0 <= i < j < |d.completed| && d.completed[i].idempotencyKey.Some?
          ==> d.completed[i].idempotencyKey != d.completed[j].idempotencyKey)
  }

  /** Over any sequence of calls the handler completes at most once per idempotency key. */
  lemma {:induction false} AtMostOneCompletionPerKey<R(!new)>(d: Dispatching<R>, calls: seq<Call<R>>)
    requires CompletedOnce(d)
    ensures CompletedOnce(DispatchAll(d, calls))
    decreases |calls|
  {
    if calls != [] {
      AtMostOneCompletionPerKey(Dispatch(d, calls[0]).0, calls[1..]);
    }
  }

  lemma {:induction false} CachedForever<R(!new)>(d: Dispatching<R>, calls: seq<Call<R>>, key: Text)
    requires key in d.cache
    ensures key in DispatchAll(d, calls).cache && DispatchAll(d, calls).cache[key] == d.cache[key]
    decreases |calls|
  {
    if calls != [] {
      CachedForever(Dispatch(d, calls[0]).0, calls[1..], key);
    }
  }

  /** What the gate asks of a command that controls the run. */
  predicate HoldsUnlockingReceipt(context: DispatchContext, scope: CommandScope) {
    && context.currentMode != "observation-only"
    && context.receipt.Some?
    && context.receipt.value.status == Active
    && context.receipt.value.scope == scope
    && context.receipt.value.modeContext == context.modeContext
    && context.receipt.value.targetMode == context.currentMode
  }

  /** The first answer for a key, and every answer without one: a command that controls the run is denied exactly unless
      an active receipt holds for the same scope, mode and mode context; any other goes to the handler, and its answer
      is passed on. A handler that raises leaves no trace. */
  lemma FirstAnswerExact<R>(d: Dispatching<R>, call: Call<R>)
    requires call.command.idempotencyKey.None? || call.command.idempotencyKey.value !in d.cache
    ensures var (d', r) := Dispatch(d, call);
            var c, answer := call.command, call.answer;
            var denied := c.action in {Pause, Resume, Branch, Clone, Reset, Rollback}
                          && !HoldsUnlockingReceipt(call.context, c.scope);
            && r == (if denied then Ok(DispatchResult(call.freshId, c, Some(c.action), None, false))
                     else if answer.Raised? then Err(answer.error)
                     else Ok(DispatchResult(call.freshId, c, None, Some(answer.value), false)))
            && d'.completed == (if denied || answer.Raised? then d.completed else d.completed + [c])
            && (r.Err? || c.idempotencyKey.None? ==> d'.cache == d.cache)
  {
  }

  /** The first answer given for a key stands, whatever happens in between and whatever the later context: a command
      with the same action, scope and target mode gets it replayed, any other is rejected, and nothing changes. */
  lemma FirstAnswerStands<R(!new)>(d: Dispatching<R>, first: Call<R>, between: seq<Call<R>>, later: Call<R>)
    requires Dispatch(d, first).1.Ok?
    requires first.command.idempotencyKey.Some? && later.command.idempotencyKey == first.command.idempotencyKey
    ensures var (d1, answer) := Dispatch(d, first);
            var d2 := DispatchAll(d1, between);
            Dispatch(d2, later) ==
              (d2, if later.command.action == first.command.action && later.command.scope == first.command.scope
                      && later.command.targetMode == first.command.targetMode
                   then Ok(answer.value.(command := later.command, replay := true))
                   else Err(KeyReused))
  {
    CachedForever(Dispatch(d, first).0, between, first.command.idempotencyKey.value);
  }
}
