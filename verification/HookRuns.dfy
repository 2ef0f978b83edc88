/** One run of a hook event of a teardown: what it does to the stored resource
    holders and to the recorder of failed releases. */
module HookRuns {
  import opened Wrappers
  import opened Naming
  import opened Lifecycle
  import opened ReleaseRecorder

  // The value of a holder is readable even when the rest of it is not.
  datatype Stored = Readable(holder: Holder) | Unreadable(value: string)

  type Holders = map<ResId, Stored>

  // How a run goes: whether the lookup of the holder, the exec command and the
  // removal of the holder work (dropIgnored: the removal that follows a failure
  // under ignore), the error if one does not, and whether the context is found
  // done when the failure is recorded and right after.
  datatype Env = Env(
    lookup: bool,
    exec: bool,
    drop: bool,
    dropIgnored: bool,
    err: int,
    doneAtRecord: bool,
    doneAfter: bool
  )

  predicate EnvOk(env: Env) {
    env.doneAtRecord ==> env.doneAfter
  }

  datatype Verdict = Succeeded | Warned | Ignored | HookFailed

  // done tells that the context was found done. cut is for the history: it was found
  // done after the failure was recorded but not yet when it was, and on_error alone
  // would have let it pass.
  datatype HookResult = HookResult(
    holders: Holders,
    record: Option<FailedRelease>,
    verdict: Verdict,
    cut: bool,
    done: bool
  )

  // ---- One run --------------------------------------------------------------

  /** The holder a run works from: the one it is given, else the stored one when it
      can be looked up and read. */
  function HeldBy(holders: Holders, id: ResId, given: Option<Holder>, env: Env): Option<Holder> {
    if given.Some? then given
    else if env.lookup && id in holders && holders[id].Readable? then Some(holders[id].holder)
    else None
  }

  function ValueFor(holders: Holders, id: ResId, given: Option<Holder>, env: Env): string {
    if given.Some? then given.value.value
    else if env.lookup && id in holders then
      match holders[id]
      case Readable(holder) => holder.value
      case Unreadable(value) => value
    else ""
  }

  /** A run that releases a resource works when the holder is found or given, the
      command exits with code zero, and the holder is dropped afterwards. */
  predicate Works(resource: Option<ResId>, given: Option<Holder>, env: Env) {
    && (resource.Some? && given.None? ==> env.lookup)
    && env.exec
    && (resource.Some? ==> env.drop)
  }

  /** What is recorded for a failed release: the holder as it was before the run,
      or one built from the run, completed with the release of the run. */
  function RecordOf(holders: Holders, id: ResId, ev: LifecycleEvent, exec: Exec, given: Option<Holder>, env: Env): FailedRelease {
    var held := HeldBy(holders, id, given, env);
    var holder := if held.Some? then held.value else Holder(ValueFor(holders, id, given, env), None);
    var full := if holder.release.Some? then holder
                else holder.(release := Some(Release(ev, exec.args, Resolved(exec.onError))));
    FailedRelease(id, full, env.err, if env.doneAtRecord then Fail else Resolved(exec.onError), false, held.None?)
  }

  /** runHookAs for an event of the teardown, which acquires nothing: with a
      resource it is a release. */
  function RunHook(holders: Holders, resource: Option<ResId>, ev: LifecycleEvent, exec: Exec, given: Option<Holder>, env: Env): HookResult {
    if Works(resource, given, env) then
      HookResult(if resource.Some? then holders - {resource.value} else holders, None, Succeeded, false, false)
    else
      var record := if resource.Some? then Some(RecordOf(holders, resource.value, ev, exec, given, env)) else None;
      if env.doneAfter
      then HookResult(holders, record, HookFailed, resource.Some? && !env.doneAtRecord && Resolved(exec.onError) != Fail, true)
      else match Resolved(exec.onError)
        case Continue => HookResult(holders, record, Warned, false, false)
        case Ignore =>
          HookResult(if resource.Some? && env.dropIgnored then holders - {resource.value} else holders, record, Ignored, false, false)
        case _ => HookResult(holders, record, HookFailed, false, false)
  }

  /** The run of the release a holder stores, forced or not. */
  function RunRelease(holders: Holders, id: ResId, h: Holder, force: bool, env: Env): HookResult
    requires h.release.Some?
  {
    var rel := h.release.value;
    var exec := Exec(rel.args, rel.onError);
    RunHook(holders, Some(id), rel.event, if force then ForcedExec(exec) else exec, Some(h), env)
  }

  // ---- What a run keeps -----------------------------------------------------

  /** A holder goes only when its release worked, or failed under ignore; no other
      holder is touched. */
  lemma RunConserves(holders: Holders, resource: Option<ResId>, ev: LifecycleEvent, exec: Exec, given: Option<Holder>, env: Env)
    ensures var r := RunHook(holders, resource, ev, exec, given, env);
      && (forall x :: x in r.holders ==> x in holders && r.holders[x] == holders[x])
      && (forall x :: x in holders && x !in r.holders ==>
            resource == Some(x) && (r.verdict.Succeeded? || r.verdict.Ignored?))
      && (resource.Some? && r.verdict.Succeeded? ==> resource.value !in r.holders)
  {
    hide RecordOf, Works;
  }

  /** A failed release is always recorded, under fail when it was cancelled, and
      nothing else is. */
  lemma RunRecords(holders: Holders, resource: Option<ResId>, ev: LifecycleEvent, exec: Exec, given: Option<Holder>, env: Env)
    requires EnvOk(env)
    ensures var r := RunHook(holders, resource, ev, exec, given, env);
      && (r.record.Some? <==> resource.Some? && !r.verdict.Succeeded?)
      && (r.record.Some? ==>
            && r.record.value.id == resource.value && r.record.value.holder.release.Some?
            && !r.record.value.retried
            && (r.verdict.Ignored? ==> r.record.value.onError == Ignore)
            && (r.verdict.Warned? ==> r.record.value.onError == Continue)
            && (env.doneAtRecord ==> r.record.value.onError == Fail))
  {
    hide Works, HeldBy, ValueFor;
  }

  /** on_error o, unset meaning fail, is that handling. */
  predicate HandledAs(o: OnError, handling: OnError) {
    if o == OnErrorUnset then handling == Fail else handling == o
  }

  /** A run succeeds exactly when its command works, behind a lookup that works unless
      the holder is given, and before a removal of the holder that works. A failure ends
      the operation under fail or a done context, and else is a warning under continue and
      passed over under ignore. The holder goes when the run succeeded, and when it was
      passed over and could be dropped then; else it stays. */
  lemma RunVerdict(holders: Holders, resource: Option<ResId>, ev: LifecycleEvent, exec: Exec, given: Option<Holder>, env: Env)
    ensures var r := RunHook(holders, resource, ev, exec, given, env);
      && (r.verdict == Succeeded <==> env.exec && (resource.Some? ==> (given.Some? || env.lookup) && env.drop))
      && (r.verdict == HookFailed <==> r.verdict != Succeeded && (env.doneAfter || HandledAs(exec.onError, Fail)))
      && (r.verdict == Warned <==> r.verdict != Succeeded && !env.doneAfter && exec.onError == Continue)
      && (r.verdict == Ignored <==> r.verdict != Succeeded && !env.doneAfter && exec.onError == Ignore)
      && (forall x :: x in r.holders <==>
            x in holders && !(resource == Some(x) && (r.verdict == Succeeded || (r.verdict == Ignored && env.dropIgnored))))
      && (r.done <==> r.verdict != Succeeded && env.doneAfter)
  {
    hide RecordOf;
  }

  lemma RunRecordIs(holders: Holders, id: ResId, ev: LifecycleEvent, exec: Exec, given: Option<Holder>, env: Env)
    ensures var r := RunHook(holders, Some(id), ev, exec, given, env).record;
      r.Some? ==> r.value == RecordOf(holders, id, ev, exec, given, env)
  {
    hide Works, RecordOf;
  }

  lemma CompletedIs(holders: Holders, id: ResId, ev: LifecycleEvent, exec: Exec, given: Option<Holder>, env: Env)
    ensures var held := HeldBy(holders, id, given, env);
      Completed(if held.Some? then held.value else Holder(ValueFor(holders, id, given, env), None), ev, exec,
                RecordOf(holders, id, ev, exec, given, env).holder)
  {
    hide HeldBy, ValueFor;
  }

  /** What is recorded of a failed release. The holder is the one given, or the stored one
      if it could be looked up and read, as it is; one that stores no release gets that of
      the run. Without either the record can only be reported, with the stored value if
      there is one. */
  lemma RecordMeans(holders: Holders, id: ResId, ev: LifecycleEvent, exec: Exec, given: Option<Holder>, env: Env)
    requires RunHook(holders, Some(id), ev, exec, given, env).record.Some?
    ensures var f := RunHook(holders, Some(id), ev, exec, given, env).record.value;
      && f.id == id && f.err == env.err && !f.retried
      && (if env.doneAtRecord then f.onError == Fail else HandledAs(exec.onError, f.onError))
      && (given.Some? ==> !f.reportOnly && Completed(given.value, ev, exec, f.holder))
      && (given.None? && env.lookup && id in holders && holders[id].Readable? ==>
            !f.reportOnly && Completed(holders[id].holder, ev, exec, f.holder))
      && (given.None? && !(env.lookup && id in holders && holders[id].Readable?) ==>
            && f.reportOnly
            && Completed(Holder(if env.lookup && id in holders then holders[id].value else "", None), ev, exec, f.holder))
  {
    RunRecordIs(holders, id, ev, exec, given, env);
    CompletedIs(holders, id, ev, exec, given, env);
    hide RunHook, Completed;
  }

  /** The holder with its release, or with that of the run when it stores none. */
  predicate Completed(h: Holder, ev: LifecycleEvent, exec: Exec, full: Holder) {
    if h.release.Some? then full == h
    else full.value == h.value && full.release.Some? && full.release.value.event == ev
         && full.release.value.args == exec.args && HandledAs(exec.onError, full.release.value.onError)
  }

  /** The record of a failed release has it handled under fail exactly when the run
      ended the operation, but for a run cut in between. */
  lemma RecordAgrees(holders: Holders, resource: Option<ResId>, ev: LifecycleEvent, exec: Exec, given: Option<Holder>, env: Env)
    requires EnvOk(env)
    ensures var r := RunHook(holders, resource, ev, exec, given, env);
      && (r.cut <==> r.record.Some? && env.doneAfter && !env.doneAtRecord && Resolved(exec.onError) != Fail)
      && (r.cut ==> r.verdict.HookFailed? && r.record.value.onError != Fail)
      && (r.record.Some? ==> !r.record.value.retried)
      && (r.record.Some? && !r.cut ==> (r.verdict.HookFailed? <==> r.record.value.onError == Fail))
      && (r.record.Some? && !r.verdict.HookFailed? ==> Resolved(exec.onError) != Fail)
  {
    hide Works, HeldBy, ValueFor;
  }

  /** A forced run ends the operation only when it is cancelled. */
  lemma ForcedFailsOnlyCancelled(holders: Holders, resource: Option<ResId>, ev: LifecycleEvent, exec: Exec, given: Option<Holder>, env: Env)
    requires Resolved(exec.onError) != Fail
    ensures var r := RunHook(holders, resource, ev, exec, given, env); r.verdict.HookFailed? ==> env.doneAfter && r.done
  {
  }

  // ---- In place -------------------------------------------------------------

  class HookStore {
    var holders: Holders

    constructor (holders: Holders)
      ensures this.holders == holders
    {
      this.holders := holders;
    }

    method FindHolder(id: ResId, env: Env) returns (found: Result<Option<Stored>, int>)
      ensures found == if env.lookup then Ok(if id in holders then Some(holders[id]) else None) else Err(env.err)
    {
      if !env.lookup {
        return Err(env.err);
      }
      return Ok(if id in holders then Some(holders[id]) else None);
    }

    method DropHolder(id: ResId, works: bool)
      modifies this
      ensures holders == if works then old(holders) - {id} else old(holders)
    {
      if works {
        holders := map x | x in holders && x != id :: holders[x];
      }
    }

    /** Runs the exec command, and drops the holder of what it released. */
    method ExecHook(resource: Option<ResId>, given: Option<Holder>, env: Env)
      returns (ok: bool, held: Option<Holder>, value: string)
      modifies this
      ensures ok == Works(resource, given, env)
      ensures resource.Some? ==> held == HeldBy(old(holders), resource.value, given, env)
      ensures resource.Some? ==> value == ValueFor(old(holders), resource.value, given, env)
      ensures holders == if ok && resource.Some? then old(holders) - {resource.value} else old(holders)
    {
      held, value := None, "";
      if resource.Some? {
        if given.Some? {
          held, value := given, given.value.value;
        } else {
          var found := FindHolder(resource.value, env);
          if found.Err? {
            return false, None, "";
          }
          if found.value.Some? {
            match found.value.value
            case Readable(h) => held, value := Some(h), h.value;
            case Unreadable(v) => value := v;
          }
        }
      }
      if !env.exec {
        return false, held, value;
      }
      if resource.Some? {
        DropHolder(resource.value, env.drop);
        return env.drop, held, value;
      }
      return true, held, value;
    }

    method RunHookAs(rec: Recorder, resource: Option<ResId>, ev: LifecycleEvent, exec: Exec, given: Option<Holder>, env: Env)
      returns (verdict: Verdict)
      modifies this, rec
      ensures var r := RunHook(old(holders), resource, ev, exec, given, env);
        && verdict == r.verdict
        && holders == r.holders
        && rec.failed == old(rec.failed) + if r.record.Some? then [r.record.value] else []
    {
      var ok, held, value := ExecHook(resource, given, env);
      if ok {
        return Succeeded;
      }
      if resource.Some? {
        var onError := if env.doneAtRecord then Fail else Resolved(exec.onError);
        var holder := if held.Some? then held.value else Holder(value, None);
        if holder.release.None? {
          holder := holder.(release := Some(Release(ev, exec.args, Resolved(exec.onError))));
        }
        rec.Record(FailedRelease(resource.value, holder, env.err, onError, false, held.None?));
      }
      if env.doneAfter {
        return HookFailed;
      }
      match Resolved(exec.onError)
      case Continue =>
        return Warned;
      case Ignore =>
        if resource.Some? {
          DropHolder(resource.value, env.dropIgnored);
        }
        return Ignored;
      case _ =>
        return HookFailed;
    }
  }
}
