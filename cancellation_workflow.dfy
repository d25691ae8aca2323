/** The cancellation workflow: a status field and a verification-code field
    that the run and the code signal update step by step. The durable
    runtime is not modelled: each activity's result is a parameter of Run,
    and the ghost field `calls` records the requests the run sends. */
module Workflows {
  import opened Wrappers
  import opened Statuses
  import opened BrowserActivities
  import opened NotificationActivities

  /** The values of the workflow's `status` field. */
  datatype Phase =
    | Pending | Starting | Navigating | Awaiting2fa | Verifying2fa | CapturingProof
    | Completed | Timeout | Failed
  {
    /** The string the status query reports. */
    function Name(): string {
      match this
      case Pending => "PENDING"
      case Starting => "STARTING"
      case Navigating => "NAVIGATING"
      case Awaiting2fa => "AWAITING_2FA"
      case Verifying2fa => "VERIFYING_2FA"
      case CapturingProof => "CAPTURING_PROOF"
      case Completed => "COMPLETED"
      case Timeout => "TIMEOUT"
      case Failed => "FAILED"
    }

    /** Position along PENDING, STARTING, NAVIGATING, AWAITING_2FA,
        VERIFYING_2FA, CAPTURING_PROOF and then one of the three ends. */
    function Rank(): nat {
      match this
      case Pending => 0
      case Starting => 1
      case Navigating => 2
      case Awaiting2fa => 3
      case Verifying2fa => 4
      case CapturingProof => 5
      case Completed => 6
      case Timeout => 6
      case Failed => 6
    }

    predicate IsTerminal() {
      Completed? || Timeout? || Failed?
    }
  }

  /** Each status in the sequence comes strictly later than every one before it. */
  ghost predicate MovesForward(h: seq<Phase>) {
    forall i, j | 0 <= i < j < |h| :: h[i].Rank() < h[j].Rank()
  }

  /** An activity execution and the request it was given. */
  datatype ActivityCall =
    | StartCall(request: CancellationRequest)
    | NotifyCall(notice: NotificationRequest)
    | InjectCall(code: InjectRequest)
    | CaptureCall(capture: CaptureRequest)

  /** The local `result` of the run: the start response, later replaced by
      the inject response. */
  datatype StepResult = StartStep(start: StartResponse) | InjectStep(inject: InjectResponse) {
    function Status(): string {
      if StartStep? then start.status else inject.status
    }
    function SessionId(): Option<string> {
      if StartStep? then start.sessionId else inject.sessionId
    }
  }

  /** The dictionary key whose absence raises KeyError in the run. */
  datatype MissingKey = UserIdKey | ServiceNameKey | SessionIdKey {
    function Name(): string {
      match this
      case UserIdKey => "user_id"
      case ServiceNameKey => "service_name"
      case SessionIdKey => "session_id"
    }
  }

  /** What the run returns. `Cancelled` is the success dictionary (status
      "SUCCESS"), `TimedOut` the dictionary with status "FAILED" and a
      reason, `StepFailed` the last activity result returned unchanged, and
      `KeyMissing` the KeyError raised when a dictionary lacks a key the run
      indexes (which fails the workflow task instead of returning). */
  datatype RunResult =
    | Cancelled(screenshotUrl: Option<string>, videoUrl: Option<string>, savingsPerYear: int, cancelledAt: string)
    | TimedOut(reason: string)
    | StepFailed(step: StepResult)
    | KeyMissing(key: MissingKey)

  const TIMEOUT_REASON: string := "2FA code not provided in time"
  const VERIFICATION_BODY: string := "Enter the code from your SMS/email to continue cancellation"

  /** The push notification asking the user for the verification code. */
  function VerificationNotice(userId: string, serviceName: string): NotificationRequest {
    NotificationRequest(Some(userId), Some(serviceName + " needs verification"), Some(VERIFICATION_BODY), None)
  }

  /** The run waits for a code: verification was required and the request
      has the two keys the notification reads. */
  predicate Waits(request: CancellationRequest, start: StartResponse) {
    start.status == TWO_FA_REQUIRED && request.userId.Some? && request.serviceName.Some?
  }

  /** Everything one run does: what it returns, the activities it executes
      (with their requests) and every status it sets, in order. */
  datatype Trace = Trace(result: RunResult, calls: seq<ActivityCall>, history: seq<Phase>)

  /** The run as a function of the activity results; `code` is the value of
      the code field when the wait ends. */
  function RunTrace(request: CancellationRequest, start: StartResponse, code: Option<string>,
                    inject: InjectResponse, proof: ProofResponse, now: string): Trace
  {
    var begun := [Pending, Starting, Navigating];
    if start.status == TWO_FA_REQUIRED then AwaitTrace(request, start, code, inject, [StartCall(request)], begun, proof, now)
    else FinishTrace(request, StartStep(start), [StartCall(request)], begun, proof, now)
  }

  /** Steps 2 to 4 of a run whose start result asked for a code, after
      `calls` and `history`. */
  function AwaitTrace(request: CancellationRequest, start: StartResponse, code: Option<string>,
                      inject: InjectResponse, calls: seq<ActivityCall>, history: seq<Phase>,
                      proof: ProofResponse, now: string): Trace
  {
    var waiting := history + [Awaiting2fa];
    if request.userId.None? then Trace(KeyMissing(UserIdKey), calls, waiting)
    else if request.serviceName.None? then Trace(KeyMissing(ServiceNameKey), calls, waiting)
    else
      var notice := VerificationNotice(request.userId.value, request.serviceName.value);
      VerifyTrace(request, start, code, inject, calls + [NotifyCall(notice)], waiting, proof, now)
  }

  /** Steps 3 and 4, once the wait has ended with `code`, after `calls` and
      `history`: time out without a code, else inject it and finish. */
  function VerifyTrace(request: CancellationRequest, start: StartResponse, code: Option<string>,
                       inject: InjectResponse, calls: seq<ActivityCall>, history: seq<Phase>,
                       proof: ProofResponse, now: string): Trace
  {
    if code.None? then Trace(TimedOut(TIMEOUT_REASON), calls, history + [Timeout])
    else if start.sessionId.None? then Trace(KeyMissing(SessionIdKey), calls, history + [Verifying2fa])
    else FinishTrace(request, InjectStep(inject), calls + [InjectCall(InjectRequest(start.sessionId, code))],
                     history + [Verifying2fa], proof, now)
  }

  /** Step 4 of the run, after `calls` and `history`: capture proof when the
      last result succeeded, else fail with that result. */
  function FinishTrace(request: CancellationRequest, step: StepResult, calls: seq<ActivityCall>, history: seq<Phase>,
                  proof: ProofResponse, now: string): Trace
  {
    if step.Status() == SUCCESS then
      if step.SessionId().None? then Trace(KeyMissing(SessionIdKey), calls, history + [CapturingProof])
      else Trace(Cancelled(proof.screenshotUrl, proof.videoUrl, request.annualCost.GetOr(0), now),
                 calls + [CaptureCall(CaptureRequest(step.SessionId()))],
                 history + [CapturingProof, Completed])
    else Trace(StepFailed(step), calls, history + [Failed])
  }

  class CancellationWorkflow {
    var twoFaCode: Option<string>
    var status: Phase
    /** Every value `status` has held, oldest first. */
    ghost var history: seq<Phase>
    /** The activities executed so far, in order. */
    ghost var calls: seq<ActivityCall>

    ghost predicate Valid()
      reads this
    {
      |history| > 0 && history[0] == Pending && history[|history| - 1] == status && MovesForward(history)
    }

    constructor ()
      ensures Valid() && status == Pending && twoFaCode == None
      ensures history == [Pending] && calls == []
    {
      twoFaCode := None;
      status := Pending;
      history := [Pending];
      calls := [];
    }

    /** The code signal: stores the code, replacing any earlier one. */
    method ProvideTwoFaCode(code: string)
      modifies this`twoFaCode
      ensures twoFaCode == Some(code)
    {
      twoFaCode := Some(code);
    }

    /** The status query. */
    method GetStatus() returns (s: string)
      ensures s == status.Name()
    {
      s := status.Name();
    }

    /** Sets the status, recording it in the history. */
    method SetStatus(phase: Phase)
      modifies this`status, this`history
      ensures status == phase && history == old(history) + [phase]
    {
      status := phase;
      history := history + [phase];
    }

    /** The workflow run. `start`, `inject` and `proof` are what the three
        browser activities return; `signalled` is the code the signal
        handler receives while the run waits (None: no code before the
        ten-minute deadline); `now` is the workflow clock at completion. */
    method Run(request: CancellationRequest, start: StartResponse, signalled: Option<string>,
               inject: InjectResponse, proof: ProofResponse, now: string)
      returns (result: RunResult)
      requires Valid() && history == [Pending] && calls == []
      modifies this
      ensures Valid()
      ensures twoFaCode == if Waits(request, start) && signalled.Some? then signalled else old(twoFaCode)
      ensures Trace(result, calls, history) == RunTrace(request, start, twoFaCode, inject, proof, now)
    {
      SetStatus(Starting);

      // Step 1: start the cancellation attempt
      SetStatus(Navigating);
      calls := calls + [StartCall(request)];
      assert history == [Pending, Starting, Navigating] && calls == [StartCall(request)];

      // Step 2: verification code
      if start.status == TWO_FA_REQUIRED {
        result := AwaitCode(request, start, signalled, inject, proof, now);
      } else {
        result := Finish(request, StartStep(start), proof, now);
      }
      RunMovesForward(request, start, twoFaCode, inject, proof, now);
    }

    /** Steps 2 and 3, after the start activity asked for a code: notify
        the user, wait for the signal, and inject the code. */
    method AwaitCode(request: CancellationRequest, start: StartResponse, signalled: Option<string>,
                     inject: InjectResponse, proof: ProofResponse, now: string)
      returns (result: RunResult)
      requires start.status == TWO_FA_REQUIRED
      modifies this
      ensures twoFaCode == if Waits(request, start) && signalled.Some? then signalled else old(twoFaCode)
      ensures Trace(result, calls, history) ==
              AwaitTrace(request, start, twoFaCode, inject, old(calls), old(history), proof, now)
      ensures status == history[|history| - 1]
    {
      SetStatus(Awaiting2fa);
      if request.userId.None? {
        return KeyMissing(UserIdKey);
      }
      if request.serviceName.None? {
        return KeyMissing(ServiceNameKey);
      }
      calls := calls + [NotifyCall(VerificationNotice(request.userId.value, request.serviceName.value))];

      // the wait: the signal handler runs if a code arrives before the deadline
      if signalled.Some? {
        ProvideTwoFaCode(signalled.value);
      }
      result := Verify(request, start, inject, proof, now);
    }

    /** Step 3: time out when no code arrived, else inject the stored code,
        then step 4. */
    method Verify(request: CancellationRequest, start: StartResponse,
                  inject: InjectResponse, proof: ProofResponse, now: string)
      returns (result: RunResult)
      modifies this`status, this`history, this`calls
      ensures Trace(result, calls, history) ==
              VerifyTrace(request, start, twoFaCode, inject, old(calls), old(history), proof, now)
      ensures status == history[|history| - 1]
    {
      if twoFaCode.None? {
        SetStatus(Timeout);
        return TimedOut(TIMEOUT_REASON);
      }
      SetStatus(Verifying2fa);
      if start.sessionId.None? {
        return KeyMissing(SessionIdKey);
      }
      calls := calls + [InjectCall(InjectRequest(start.sessionId, twoFaCode))];
      result := Finish(request, InjectStep(inject), proof, now);
    }

    /** Step 4: capture proof when the last result succeeded, else fail
        with that result. */
    method Finish(request: CancellationRequest, step: StepResult, proof: ProofResponse, now: string)
      returns (result: RunResult)
      modifies this`status, this`history, this`calls
      ensures Trace(result, calls, history) == FinishTrace(request, step, old(calls), old(history), proof, now)
      ensures status == history[|history| - 1]
    {
      if step.Status() == SUCCESS {
        SetStatus(CapturingProof);
        if step.SessionId().None? {
          return KeyMissing(SessionIdKey);
        }
        calls := calls + [CaptureCall(CaptureRequest(step.SessionId()))];
        SetStatus(Completed);
        return Cancelled(proof.screenshotUrl, proof.videoUrl, request.annualCost.GetOr(0), now);
      }
      SetStatus(Failed);
      return StepFailed(step);
    }
  }

  /** Every run starts PENDING and only moves forward through the statuses;
      it ends in one of the three terminal statuses exactly when it returns
      rather than failing on a missing key. */
  lemma RunMovesForward(request: CancellationRequest, start: StartResponse, code: Option<string>,
                        inject: InjectResponse, proof: ProofResponse, now: string)
    ensures var t := RunTrace(request, start, code, inject, proof, now);
            && |t.history| > 0 && t.history[0] == Pending && MovesForward(t.history)
            && (t.history[|t.history| - 1].IsTerminal() <==> !t.result.KeyMissing?)
  {
    var begun := [Pending, Starting, Navigating];
    assert MovesForward(begun);
    if start.status != TWO_FA_REQUIRED {
      FinishTraceForward(request, StartStep(start), [StartCall(request)], begun, proof, now);
    } else {
      AwaitForward(request, start, code, inject, [StartCall(request)], begun, proof, now);
    }
  }

  /** Steps 2 to 4 keep a history that has not yet reached AWAITING_2FA
      moving forward. */
  lemma AwaitForward(request: CancellationRequest, start: StartResponse, code: Option<string>,
                     inject: InjectResponse, calls: seq<ActivityCall>, h: seq<Phase>,
                     proof: ProofResponse, now: string)
    requires MovesForward(h) && |h| > 0 && h[0] == Pending && h[|h| - 1].Rank() < Awaiting2fa.Rank()
    ensures var t := AwaitTrace(request, start, code, inject, calls, h, proof, now);
            && |t.history| > 0 && t.history[0] == Pending && MovesForward(t.history)
            && (t.history[|t.history| - 1].IsTerminal() <==> !t.result.KeyMissing?)
  {
    ExtendForward(h, Awaiting2fa);
    if request.userId.Some? && request.serviceName.Some? {
      var notice := VerificationNotice(request.userId.value, request.serviceName.value);
      VerifyForward(request, start, code, inject, calls + [NotifyCall(notice)], h + [Awaiting2fa], proof, now);
    }
  }

  /** Steps 3 and 4 keep the history moving forward after AWAITING_2FA. */
  lemma VerifyForward(request: CancellationRequest, start: StartResponse, code: Option<string>,
                      inject: InjectResponse, calls: seq<ActivityCall>, h: seq<Phase>,
                      proof: ProofResponse, now: string)
    requires MovesForward(h) && |h| > 0 && h[0] == Pending && h[|h| - 1] == Awaiting2fa
    ensures var t := VerifyTrace(request, start, code, inject, calls, h, proof, now);
            && |t.history| > 0 && t.history[0] == Pending && MovesForward(t.history)
            && (t.history[|t.history| - 1].IsTerminal() <==> !t.result.KeyMissing?)
  {
    if code.None? {
      ExtendForward(h, Timeout);
    } else {
      ExtendForward(h, Verifying2fa);
      if start.sessionId.Some? {
        var injected := calls + [InjectCall(InjectRequest(start.sessionId, code))];
        FinishTraceForward(request, InjectStep(inject), injected, h + [Verifying2fa], proof, now);
      }
    }
  }

  /** Step 4 keeps a forward-moving history moving forward and ends it in a
      terminal status unless the result lacks its session id. */
  lemma FinishTraceForward(request: CancellationRequest, step: StepResult, calls: seq<ActivityCall>,
                           h: seq<Phase>, proof: ProofResponse, now: string)
    requires MovesForward(h) && |h| > 0 && h[0] == Pending && h[|h| - 1].Rank() < CapturingProof.Rank()
    ensures var t := FinishTrace(request, step, calls, h, proof, now);
            && |t.history| > 0 && t.history[0] == Pending && MovesForward(t.history)
            && (t.history[|t.history| - 1].IsTerminal() <==> !t.result.KeyMissing?)
  {
    FinishForward(h);
  }

  /** Appending a later status keeps the history moving forward. */
  lemma ExtendForward(h: seq<Phase>, p: Phase)
    requires MovesForward(h) && |h| > 0 && h[|h| - 1].Rank() < p.Rank()
    ensures MovesForward(h + [p])
  {
  }

  lemma FinishForward(h: seq<Phase>)
    requires MovesForward(h) && |h| > 0 && h[|h| - 1].Rank() < CapturingProof.Rank()
    ensures MovesForward(h + [Failed]) && MovesForward(h + [CapturingProof])
    ensures MovesForward(h + [CapturingProof, Completed])
  {
    ExtendForward(h, Failed);
    ExtendForward(h, CapturingProof);
    ExtendForward(h + [CapturingProof], Completed);
    assert h + [CapturingProof] + [Completed] == h + [CapturingProof, Completed];
  }

  /** The notification request a single call carries, if any. */
  function NoticeOf(call: ActivityCall): seq<NotificationRequest> {
    if call.NotifyCall? then [call.notice] else []
  }

  /** The notification requests among the activity calls, in order. */
  function Notifications(calls: seq<ActivityCall>): (ns: seq<NotificationRequest>)
    ensures |ns| <= |calls|
  {
    if calls == [] then [] else NoticeOf(calls[0]) + Notifications(calls[1..])
  }

  lemma {:induction false} NotificationsAppend(a: seq<ActivityCall>, b: seq<ActivityCall>)
    ensures Notifications(a + b) == Notifications(a) + Notifications(b)
  {
    if a == [] {
      assert a + b == b;
    } else {
      var ab := a + b;
      assert ab[0] == a[0] && ab[1..] == a[1..] + b;
      NotificationsAppend(a[1..], b);
      calc {
        Notifications(ab);
        NoticeOf(a[0]) + Notifications(a[1..] + b);
        NoticeOf(a[0]) + (Notifications(a[1..]) + Notifications(b));
        (NoticeOf(a[0]) + Notifications(a[1..])) + Notifications(b);
      }
    }
  }

  /** The calls of a run: the start call first, then exactly one
      notification when the run waits for a code, and none otherwise. */
  lemma RunCallsShape(request: CancellationRequest, start: StartResponse, code: Option<string>,
                      inject: InjectResponse, proof: ProofResponse, now: string)
    ensures var t := RunTrace(request, start, code, inject, proof, now);
            && |t.calls| > 0 && t.calls[0] == StartCall(request)
            && Notifications(t.calls) == if Waits(request, start)
                                         then [VerificationNotice(request.userId.value, request.serviceName.value)]
                                         else []
  {
    var first := [StartCall(request)];
    var begun := [Pending, Starting, Navigating];
    assert Notifications(first) == NoticeOf(first[0]) + Notifications([]) by {
      assert first[1..] == [];
    }
    if start.status == TWO_FA_REQUIRED {
      AwaitCalls(request, start, code, inject, first, begun, proof, now);
    } else {
      FinishCalls(request, StartStep(start), first, begun, proof, now);
    }
  }

  /** The single-call list made of a call that is not a notification has
      no notification. */
  lemma NoticeFree(c: ActivityCall)
    requires !c.NotifyCall?
    ensures Notifications([c]) == []
  {
    assert [c][1..] == [];
  }

  /** Steps 2 to 4 extend the calls, adding the verification notice when
      both keys it reads are present, and no other notification. */
  lemma AwaitCalls(request: CancellationRequest, start: StartResponse, code: Option<string>,
                   inject: InjectResponse, calls: seq<ActivityCall>, h: seq<Phase>,
                   proof: ProofResponse, now: string)
    ensures var t := AwaitTrace(request, start, code, inject, calls, h, proof, now);
            && |t.calls| >= |calls| && t.calls[..|calls|] == calls
            && Notifications(t.calls) == Notifications(calls) +
                 if request.userId.Some? && request.serviceName.Some?
                 then [VerificationNotice(request.userId.value, request.serviceName.value)]
                 else []
  {
    if request.userId.Some? && request.serviceName.Some? {
      var notice := VerificationNotice(request.userId.value, request.serviceName.value);
      var notified := calls + [NotifyCall(notice)];
      assert Notifications([NotifyCall(notice)]) == [notice] by {
        assert [NotifyCall(notice)][1..] == [];
      }
      NotificationsAppend(calls, [NotifyCall(notice)]);
      VerifyCalls(request, start, code, inject, notified, h + [Awaiting2fa], proof, now);
      assert notified[..|calls|] == calls;
    } else {
      assert calls[..|calls|] == calls;
    }
  }

  /** Steps 3 and 4 extend the calls without any notification. */
  lemma VerifyCalls(request: CancellationRequest, start: StartResponse, code: Option<string>,
                    inject: InjectResponse, calls: seq<ActivityCall>, h: seq<Phase>,
                    proof: ProofResponse, now: string)
    ensures var t := VerifyTrace(request, start, code, inject, calls, h, proof, now);
            && |t.calls| >= |calls| && t.calls[..|calls|] == calls
            && Notifications(t.calls) == Notifications(calls)
  {
    if code.Some? && start.sessionId.Some? {
      var c := InjectCall(InjectRequest(start.sessionId, code));
      NoticeFree(c);
      NotificationsAppend(calls, [c]);
      FinishCalls(request, InjectStep(inject), calls + [c], h + [Verifying2fa], proof, now);
      assert (calls + [c])[..|calls|] == calls;
    } else {
      assert calls[..|calls|] == calls;
    }
  }

  /** Step 4 extends the calls without any notification. */
  lemma FinishCalls(request: CancellationRequest, step: StepResult, calls: seq<ActivityCall>, h: seq<Phase>,
                    proof: ProofResponse, now: string)
    ensures var t := FinishTrace(request, step, calls, h, proof, now);
            && |t.calls| >= |calls| && t.calls[..|calls|] == calls
            && Notifications(t.calls) == Notifications(calls)
  {
    if step.Status() == SUCCESS && step.SessionId().Some? {
      var c := CaptureCall(CaptureRequest(step.SessionId()));
      NoticeFree(c);
      NotificationsAppend(calls, [c]);
      assert (calls + [c])[..|calls|] == calls;
    } else {
      assert calls[..|calls|] == calls;
    }
  }

  /** Start succeeds at once: no notification and no injection; proof is
      captured for the start session and the run completes with "SUCCESS". */
  lemma DirectSuccess(request: CancellationRequest, start: StartResponse, code: Option<string>,
                      inject: InjectResponse, proof: ProofResponse, now: string)
    requires start.status == SUCCESS && start.sessionId.Some?
    ensures var t := RunTrace(request, start, code, inject, proof, now);
            && t.calls == [StartCall(request), CaptureCall(CaptureRequest(start.sessionId))]
            && t.history == [Pending, Starting, Navigating, CapturingProof, Completed]
            && t.result == Cancelled(proof.screenshotUrl, proof.videoUrl, request.annualCost.GetOr(0), now)
  {
  }

  /** Verification required and the notification sent, but no code before
      the deadline: TIMEOUT, the timeout reason, and neither injection nor
      proof capture. */
  lemma TimeoutStopsRun(request: CancellationRequest, start: StartResponse,
                        inject: InjectResponse, proof: ProofResponse, now: string)
    requires Waits(request, start)
    ensures var t := RunTrace(request, start, None, inject, proof, now);
            && t.result == TimedOut(TIMEOUT_REASON)
            && t.history == [Pending, Starting, Navigating, Awaiting2fa, Timeout]
            && forall c | c in t.calls :: !c.InjectCall? && !c.CaptureCall?
  {
  }

  /** A code that arrived is injected into the start session, VERIFYING_2FA
      is set, and the injection's response decides the rest of the run. */
  lemma CodeIsInjected(request: CancellationRequest, start: StartResponse, code: string,
                       inject: InjectResponse, proof: ProofResponse, now: string)
    requires Waits(request, start) && start.sessionId.Some?
    ensures var t := RunTrace(request, start, Some(code), inject, proof, now);
            && |t.calls| >= 3 && t.calls[2] == InjectCall(InjectRequest(start.sessionId, Some(code)))
            && |t.history| >= 5 && t.history[..5] == [Pending, Starting, Navigating, Awaiting2fa, Verifying2fa]
            && (t.result.Cancelled? <==> inject.status == SUCCESS && inject.sessionId.Some?)
            && (t.result.Cancelled? ==> t.calls[3] == CaptureCall(CaptureRequest(inject.sessionId)))
  {
  }

  /** When the last activity result did not succeed the run ends FAILED,
      returns that result unchanged, and never captures proof. */
  lemma FailureReturnsLastResult(request: CancellationRequest, start: StartResponse, code: Option<string>,
                                 inject: InjectResponse, proof: ProofResponse, now: string, step: StepResult)
    requires step == (if start.status == TWO_FA_REQUIRED then InjectStep(inject) else StartStep(start))
    requires start.status == TWO_FA_REQUIRED ==> Waits(request, start) && code.Some? && start.sessionId.Some?
    requires step.Status() != SUCCESS
    ensures var t := RunTrace(request, start, code, inject, proof, now);
            && t.result == StepFailed(step)
            && t.history[|t.history| - 1] == Failed
            && forall c | c in t.calls :: !c.CaptureCall?
  {
  }

  /** A successful run reports the proof URLs as captured (even when the
      capture produced none) and the annual cost, defaulting to 0, as the
      yearly saving; proof was captured exactly in successful runs. */
  lemma SuccessReport(request: CancellationRequest, start: StartResponse, code: Option<string>,
                      inject: InjectResponse, proof: ProofResponse, now: string)
    ensures var t := RunTrace(request, start, code, inject, proof, now);
            && |t.history| > 0
            && (t.result.Cancelled? <==> t.history[|t.history| - 1] == Completed)
            && (t.result.Cancelled? <==> exists c | c in t.calls :: c.CaptureCall?)
            && (t.result.Cancelled? ==>
                  t.result == Cancelled(proof.screenshotUrl, proof.videoUrl, request.annualCost.GetOr(0), now))
  {
    var first := [StartCall(request)];
    var begun := [Pending, Starting, Navigating];
    assert NoCapture(first);
    if start.status == TWO_FA_REQUIRED {
      AwaitReport(request, start, code, inject, first, begun, proof, now);
    } else {
      FinishReport(request, StartStep(start), first, begun, proof, now);
    }
  }

  /** None of the calls captures proof. */
  predicate NoCapture(calls: seq<ActivityCall>) {
    forall c | c in calls :: !c.CaptureCall?
  }

  /** `SuccessReport` for steps 2 to 4. */
  lemma AwaitReport(request: CancellationRequest, start: StartResponse, code: Option<string>,
                    inject: InjectResponse, calls: seq<ActivityCall>, h: seq<Phase>,
                    proof: ProofResponse, now: string)
    requires NoCapture(calls)
    ensures var t := AwaitTrace(request, start, code, inject, calls, h, proof, now);
            && |t.history| > 0
            && (t.result.Cancelled? <==> t.history[|t.history| - 1] == Completed)
            && (t.result.Cancelled? <==> exists c | c in t.calls :: c.CaptureCall?)
            && (t.result.Cancelled? ==>
                  t.result == Cancelled(proof.screenshotUrl, proof.videoUrl, request.annualCost.GetOr(0), now))
  {
    if request.userId.Some? && request.serviceName.Some? {
      var notice := VerificationNotice(request.userId.value, request.serviceName.value);
      assert NoCapture(calls + [NotifyCall(notice)]);
      VerifyReport(request, start, code, inject, calls + [NotifyCall(notice)], h + [Awaiting2fa], proof, now);
    }
  }

  /** `SuccessReport` for steps 3 and 4. */
  lemma VerifyReport(request: CancellationRequest, start: StartResponse, code: Option<string>,
                     inject: InjectResponse, calls: seq<ActivityCall>, h: seq<Phase>,
                     proof: ProofResponse, now: string)
    requires NoCapture(calls)
    ensures var t := VerifyTrace(request, start, code, inject, calls, h, proof, now);
            && |t.history| > 0
            && (t.result.Cancelled? <==> t.history[|t.history| - 1] == Completed)
            && (t.result.Cancelled? <==> exists c | c in t.calls :: c.CaptureCall?)
            && (t.result.Cancelled? ==>
                  t.result == Cancelled(proof.screenshotUrl, proof.videoUrl, request.annualCost.GetOr(0), now))
  {
    if code.Some? && start.sessionId.Some? {
      var c := InjectCall(InjectRequest(start.sessionId, code));
      assert NoCapture(calls + [c]);
      FinishReport(request, InjectStep(inject), calls + [c], h + [Verifying2fa], proof, now);
    }
  }

  /** `SuccessReport` for step 4. */
  lemma FinishReport(request: CancellationRequest, step: StepResult, calls: seq<ActivityCall>, h: seq<Phase>,
                     proof: ProofResponse, now: string)
    requires NoCapture(calls)
    ensures var t := FinishTrace(request, step, calls, h, proof, now);
            && |t.history| > 0
            && (t.result.Cancelled? <==> t.history[|t.history| - 1] == Completed)
            && (t.result.Cancelled? <==> exists c | c in t.calls :: c.CaptureCall?)
            && (t.result.Cancelled? ==>
                  t.result == Cancelled(proof.screenshotUrl, proof.videoUrl, request.annualCost.GetOr(0), now))
  {
    if step.Status() == SUCCESS && step.SessionId().Some? {
      var c := CaptureCall(CaptureRequest(step.SessionId()));
      assert (calls + [c])[|calls|] == c;
    }
  }

  /** A new workflow reports PENDING. */
  method FreshWorkflowIsPending() returns (s: string)
    ensures s == "PENDING"
  {
    var w := new CancellationWorkflow();
    s := w.GetStatus();
  }

  /** Signals are last-write-wins: a second code replaces the first. */
  method LaterSignalWins(first: string, second: string) returns (code: Option<string>)
    ensures code == Some(second)
  {
    var w := new CancellationWorkflow();
    w.ProvideTwoFaCode(first);
    w.ProvideTwoFaCode(second);
    code := w.twoFaCode;
  }
}
