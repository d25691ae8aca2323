/** The three browser activities of the cancellation workflow, each a
    mapping from a request dictionary (and what its collaborators returned)
    to a fresh response dictionary. A None field stands for a key that is
    absent (or holds None); clock readings are given as opaque strings. */
module BrowserActivities {
  import opened Wrappers
  import opened Strings
  import opened Statuses
  import opened BrowserAgent

  /** The request dictionary a cancellation starts from. */
  datatype CancellationRequest = CancellationRequest(
    userId: Option<string>,
    serviceName: Option<string>,
    loginUrl: Option<string>,
    email: Option<string>,
    password: Option<string>,
    useSteel: Option<bool>,
    annualCost: Option<int>)

  /** The arguments `start_cancellation` passes to the agent. */
  datatype AgentArguments = AgentArguments(
    serviceName: string, loginUrl: string, email: string, password: string, useSteel: bool)

  datatype StartResponse = StartResponse(
    status: string,
    sessionId: Option<string>,
    message: Option<string>,
    screenshotPath: Option<string>,
    timestamp: Option<string>,
    serviceName: Option<string>)

  const MISSING_START_PARAMETERS: string :=
    "Missing required parameters: service_name, login_url, email, password"
  const DEFAULT_2FA_MESSAGE: string := "Verification code required"
  const DEFAULT_ERROR: string := "Unknown error occurred"
  const EXCEPTION_PREFIX: string := "Exception occurred: "

  /** The validation of `start_cancellation`: all four fields truthy. */
  predicate HasRequiredParameters(request: CancellationRequest) {
    Given(request.serviceName) && Given(request.loginUrl) && Given(request.email) && Given(request.password)
  }

  /** The agent call `start_cancellation` makes, or None when validation
      returns before reaching it. `use_steel` defaults to false. */
  function AgentInvocation(request: CancellationRequest): (a: Option<AgentArguments>)
    ensures a.Some? <==> HasRequiredParameters(request)
    ensures a.Some? ==> a.value.useSteel == request.useSteel.GetOr(false)
    ensures a.Some? ==> a.value.serviceName == request.serviceName.value != ""
    ensures a.Some? ==> && a.value.loginUrl == request.loginUrl.value
                        && a.value.email == request.email.value
                        && a.value.password == request.password.value
  {
    if HasRequiredParameters(request) then
      Some(AgentArguments(request.serviceName.value, request.loginUrl.value, request.email.value,
                          request.password.value, request.useSteel.GetOr(false)))
    else None
  }

  /** The session identifier: service, user id (printed "None" when absent)
      and the clock reading, joined by underscores. */
  function SessionId(serviceName: string, userId: Option<string>, clock: string): string {
    serviceName + "_" + Render(userId) + "_" + clock
  }

  /** `start_cancellation`. `agent` is what the agent call produced (it is
      consulted only when validation passes) and `clock` the reading taken
      for the session identifier. */
  function StartCancellation(request: CancellationRequest, agent: AgentCall, clock: string): (r: StartResponse)
    ensures IsOutcome(r.status)
    ensures !HasRequiredParameters(request) ==>
              r == StartResponse(FAILED, None, Some(MISSING_START_PARAMETERS), None, None, None)
    ensures HasRequiredParameters(request) && agent.Threw? ==>
              r.status == FAILED && r.message == Some(EXCEPTION_PREFIX + agent.message)
              && r.serviceName == request.serviceName
    ensures HasRequiredParameters(request) && agent.Returned? ==>
              && r.serviceName == request.serviceName
              && (r.status == TWO_FA_REQUIRED <==> agent.result.status == TWO_FA_REQUIRED)
              && (r.status == SUCCESS <==> agent.result.status == SUCCESS)
    ensures r.status != FAILED ==>
              HasRequiredParameters(request)
              && r.sessionId == Some(SessionId(request.serviceName.value, request.userId, clock))
    ensures r.status == FAILED ==> r.sessionId == None
    ensures r.status == SUCCESS ==> r.timestamp == agent.result.timestamp
    ensures r.status == TWO_FA_REQUIRED ==> r.message == Some(agent.result.message.GetOr(DEFAULT_2FA_MESSAGE))
    ensures r.status == SUCCESS ==> r.screenshotPath == agent.result.screenshot
    ensures r.status == FAILED && HasRequiredParameters(request) && agent.Returned? ==>
              r.message == Some(agent.result.error.GetOr(DEFAULT_ERROR))
  {
    if !HasRequiredParameters(request) then
      StartResponse(FAILED, None, Some(MISSING_START_PARAMETERS), None, None, None)
    else
      match agent
      case Threw(e) =>
        StartResponse(FAILED, None, Some(EXCEPTION_PREFIX + e), None, None, request.serviceName)
      case Returned(result) =>
        var serviceName := request.serviceName.value;
        var sessionId := SessionId(serviceName, request.userId, clock);
        if result.status == TWO_FA_REQUIRED then
          StartResponse(TWO_FA_REQUIRED, Some(sessionId), Some(result.message.GetOr(DEFAULT_2FA_MESSAGE)),
                        None, None, Some(serviceName))
        else if result.status == SUCCESS then
          StartResponse(SUCCESS, Some(sessionId), None, result.screenshot, result.timestamp, Some(serviceName))
        else
          StartResponse(FAILED, None, Some(result.error.GetOr(DEFAULT_ERROR)), None, None, Some(serviceName))
  }

  /** When validation fails the response does not depend on the agent at
      all: the agent is never called. */
  lemma InvalidRequestSkipsAgent(request: CancellationRequest, a: AgentCall, b: AgentCall, clock: string)
    requires !HasRequiredParameters(request)
    ensures StartCancellation(request, a, clock) == StartCancellation(request, b, clock)
    ensures AgentInvocation(request) == None
  {
  }

  /** The session identifier begins with the service name and an underscore. */
  lemma SessionIdNamesService(serviceName: string, userId: Option<string>, clock: string)
    ensures |SessionId(serviceName, userId, clock)| > |serviceName|
    ensures SessionId(serviceName, userId, clock)[..|serviceName| + 1] == serviceName + "_"
  {
    var s := SessionId(serviceName, userId, clock);
    assert s == (serviceName + "_") + (Render(userId) + "_" + clock);
  }

  /** Starting through the real agent: the response follows the agent run
      (completed: SUCCESS with the agent's screenshot; a verification
      message: 2FA_REQUIRED with the agent's message; otherwise FAILED with
      the exception text). */
  lemma StartFollowsAgentRun(request: CancellationRequest, run: AgentRun, shotAt: string, doneAt: string, clock: string)
    requires HasRequiredParameters(request)
    ensures var service := AgentInvocation(request).value.serviceName;
            var r := StartCancellation(request, Returned(Classify(service, run, shotAt, doneAt)), clock);
            && (r.status == SUCCESS <==> run.Completed?)
            && (run.Completed? ==> r.screenshotPath == Some(ScreenshotPath(service, shotAt)))
            && (run.Raised? && AsksForVerification(run.message) ==>
                  r.status == TWO_FA_REQUIRED && r.message == Some(VERIFICATION_MESSAGE))
            && (run.Raised? && !AsksForVerification(run.message) ==>
                  r.status == FAILED && r.message == Some(run.message))
  {
  }

  // ------------------------------------------------------------ inject_2fa_code

  datatype InjectRequest = InjectRequest(sessionId: Option<string>, code: Option<string>)

  datatype InjectResponse = InjectResponse(status: string, sessionId: Option<string>, message: string)

  const MISSING_INJECT_PARAMETERS: string := "Missing required parameters: session_id, code"
  const INJECTED_MESSAGE: string := "2FA code verified and cancellation continued"

  /** `inject_2fa_code` (whose injection itself is still a placeholder). */
  function Inject2faCode(request: InjectRequest): (r: InjectResponse)
    ensures r.status == SUCCESS || r.status == FAILED
    ensures r.status == FAILED <==> !Given(request.sessionId) || !Given(request.code)
    ensures r.status == FAILED ==> r.message == MISSING_INJECT_PARAMETERS && r.sessionId == None
    ensures r.status == SUCCESS ==> r.sessionId == request.sessionId && Given(r.sessionId)
  {
    if !Given(request.sessionId) || !Given(request.code) then
      InjectResponse(FAILED, None, MISSING_INJECT_PARAMETERS)
    else
      InjectResponse(SUCCESS, request.sessionId, INJECTED_MESSAGE)
  }

  // -------------------------------------------------------------- capture_proof

  datatype CaptureRequest = CaptureRequest(sessionId: Option<string>)

  datatype ProofResponse = ProofResponse(
    screenshotUrl: Option<string>,
    videoUrl: Option<string>,
    timestamp: Option<string>,
    sessionId: Option<string>,
    message: Option<string>)

  const SCREENSHOT_PREFIX: string := "https://storage.supabase.co/proof/"
  const SCREENSHOT_SUFFIX: string := "/screenshot.png"
  const VIDEO_PREFIX: string := "https://steel.dev/sessions/"
  const VIDEO_SUFFIX: string := "/recording.mp4"

  function ScreenshotUrl(sessionId: string): string {
    SCREENSHOT_PREFIX + sessionId + SCREENSHOT_SUFFIX
  }

  function VideoUrl(sessionId: string): string {
    VIDEO_PREFIX + sessionId + VIDEO_SUFFIX
  }

  /** `capture_proof` (whose upload is still a placeholder); `now` is the
      capture timestamp. */
  function CaptureProof(request: CaptureRequest, now: string): (r: ProofResponse)
    ensures r.screenshotUrl.Some? <==> Given(request.sessionId)
    ensures Given(request.sessionId) ==>
              && r.screenshotUrl == Some(ScreenshotUrl(request.sessionId.value))
              && r.videoUrl == Some(VideoUrl(request.sessionId.value))
              && r.sessionId == request.sessionId
              && r.timestamp == Some(now)
    ensures !Given(request.sessionId) ==> r.videoUrl == None && r.message == Some("Missing session_id")
  {
    if !Given(request.sessionId) then
      ProofResponse(None, None, None, None, Some("Missing session_id"))
    else
      var sessionId := request.sessionId.value;
      ProofResponse(Some(ScreenshotUrl(sessionId)), Some(VideoUrl(sessionId)), Some(now), request.sessionId, None)
  }

  /** Recovers the session identifier from a URL `prefix + id + suffix`. */
  function SessionOfUrl(url: string, prefix: string, suffix: string): Option<string> {
    if |prefix| + |suffix| <= |url| && url[..|prefix|] == prefix && url[|url| - |suffix|..] == suffix
    then Some(url[|prefix|..|url| - |suffix|])
    else None
  }

  lemma {:induction false} UrlRoundTrip(prefix: string, id: string, suffix: string)
    ensures SessionOfUrl(prefix + id + suffix, prefix, suffix) == Some(id)
  {
    var url := prefix + id + suffix;
    assert url[..|prefix|] == prefix;
    assert url[|url| - |suffix|..] == suffix;
    assert url[|prefix|..|url| - |suffix|] == id;
  }

  /** Both proof URLs name the session they were captured for, so distinct
      sessions never share a proof URL. */
  lemma ProofUrlsIdentifySession(sessionId: string)
    ensures SessionOfUrl(ScreenshotUrl(sessionId), SCREENSHOT_PREFIX, SCREENSHOT_SUFFIX) == Some(sessionId)
    ensures SessionOfUrl(VideoUrl(sessionId), VIDEO_PREFIX, VIDEO_SUFFIX) == Some(sessionId)
  {
    UrlRoundTrip(SCREENSHOT_PREFIX, sessionId, SCREENSHOT_SUFFIX);
    UrlRoundTrip(VIDEO_PREFIX, sessionId, VIDEO_SUFFIX);
  }
}
