/** control/commands.py: canonical actions, scopes, mode-switch receipts and command envelopes. */
module Commands {
  import opened Prelude
  import opened StoragePaths

  datatype Action = Observe | ModeSwitch | Pause | Resume | Branch | Clone | Reset | Rollback

  predicate IsControl(a: Action) {
    !a.Observe? && !a.ModeSwitch?
  }

  const OBSERVATION_ONLY: Text := "observation-only"

  /** A command scope; run_id requires experiment_id. */
  datatype RawScope = CommandScope(projectId: Segment, glassBoxId: Segment,
                                   experimentId: Option<Segment>, runId: Option<Segment>)

  type CommandScope = s: RawScope | s.runId.Some? ==> s.experimentId.Some?
    witness CommandScope("a", "a", None, None)

  /** The run a command addresses, if it is run-scoped. */
  function RunOf(s: CommandScope): Option<RunScope> {
    if s.runId.None? then None
    else Some(RunScope(s.projectId, s.glassBoxId, s.experimentId.value, s.runId.value))
  }

  function ScopeOf(run: RunScope): CommandScope {
    CommandScope(run.projectId, run.glassboxId, Some(run.experimentId), Some(run.runId))
  }

  datatype ReceiptStatus = Requested | Approved | Active | Completed | Expired | Revoked | Rejected

  datatype ModeSwitchReceipt = ModeSwitchReceipt(id: nat, scope: CommandScope, modeContext: Text,
                                                 targetMode: Text, status: ReceiptStatus)
  {
    predicate IsActiveFor(scope: CommandScope, currentMode: Text, modeContext: Text) {
      status == Active && this.scope == scope && this.modeContext == modeContext && targetMode == currentMode
    }
  }

  /** cloneRunId and targetCycleId are the two surface_metadata keys that are ever read. */
  datatype RawCommand = Command(id: nat, action: Action, scope: CommandScope, idempotencyKey: Option<Text>,
                                targetMode: Option<Text>, surface: Option<Text>,
                                cloneRunId: Option<string>, targetCycleId: Option<Text>)

  /** target_mode is given for a mode switch and for nothing else. */
  type Command = c: RawCommand | c.targetMode.Some? <==> c.action.ModeSwitch?
    witness Command(0, Observe, CommandScope("a", "a", None, None), None, None, None, None, None)

  type Fingerprint = (Action, CommandScope, Option<Text>)

  function SemanticFingerprint(c: Command): Fingerprint {
    (c.action, c.scope, c.targetMode)
  }
}
