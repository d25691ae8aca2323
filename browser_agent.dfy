/** The browser agent: the browser configuration it asks for, how the
    outcome of one agent run becomes a result dictionary, and the browser it
    opens and closes once the agent has been built. The language-model agent and the browser engine
    themselves are not modelled: a run is given by its outcome. */
module BrowserAgent {
  import opened Wrappers
  import opened Strings
  import opened Statuses

  datatype BrowserConfig = BrowserConfig(cdpUrl: Option<string>, headless: bool)

  /** `get_browser_config`; `steelCdpUrl` is the value of STEEL_CDP_URL.
      The hosted browser runs headless at that endpoint; the local one is
      visible and has no endpoint. */
  function GetBrowserConfig(useSteel: bool, steelCdpUrl: Option<string>): (c: BrowserConfig)
    ensures c.headless <==> useSteel
    ensures useSteel ==> c.cdpUrl == steelCdpUrl
    ensures !useSteel ==> c.cdpUrl == None
  {
    if useSteel then BrowserConfig(steelCdpUrl, true) else BrowserConfig(None, false)
  }

  /** What the body of the `try` did: `agent.run` and the screenshot
      completed, or an exception was raised whose `str()` is `message`. */
  datatype AgentRun = Completed | Raised(message: string)

  /** The result dictionary of `cancel_subscription`; None stands for an
      absent key. The agent's step history is not modelled. */
  datatype AgentResult = AgentResult(
    status: string,
    service: string,
    screenshot: Option<string>,
    timestamp: Option<string>,
    message: Option<string>,
    error: Option<string>)

  /** What `await cancel_subscription(...)` produced: its result
      dictionary, or an exception that escaped it. */
  datatype AgentCall = Returned(result: AgentResult) | Threw(message: string)

  const VERIFICATION_MESSAGE: string := "User needs to provide verification code"

  /** Where the proof screenshot is written, given the clock reading `at`. */
  function ScreenshotPath(serviceName: string, at: string): string {
    "proofs/" + serviceName + "_" + at + ".png"
  }

  /** The test in the `except` branch: the message holds "2FA" (exact case)
      or, once lower-cased, "verification". */
  predicate AsksForVerification(message: string) {
    Contains(message, "2FA") || Contains(Lower(message), "verification")
  }

  /** The result dictionary for a run; `shotAt` and `doneAt` are the two
      clock readings taken after a completed run. */
  function Classify(serviceName: string, run: AgentRun, shotAt: string, doneAt: string): (r: AgentResult)
    ensures r.service == serviceName && IsOutcome(r.status)
    ensures r.status == SUCCESS <==> run.Completed?
    ensures run.Completed? ==>
              r.screenshot == Some(ScreenshotPath(serviceName, shotAt)) && r.timestamp == Some(doneAt)
    ensures run.Raised? ==> (r.status == TWO_FA_REQUIRED <==> AsksForVerification(run.message))
    ensures r.status == TWO_FA_REQUIRED ==> r.message == Some(VERIFICATION_MESSAGE) && r.error == None
    ensures r.status == FAILED ==> run.Raised? && r.error == Some(run.message)
  {
    match run
    case Completed =>
      AgentResult(SUCCESS, serviceName, Some(ScreenshotPath(serviceName, shotAt)), Some(doneAt), None, None)
    case Raised(message) =>
      if AsksForVerification(message) then
        AgentResult(TWO_FA_REQUIRED, serviceName, None, None, Some(VERIFICATION_MESSAGE), None)
      else
        AgentResult(FAILED, serviceName, None, None, None, Some(message))
  }

  /** "verification" is recognised in any letter case. */
  lemma VerificationInAnyCase(serviceName: string, message: string, word: string, i: nat, shotAt: string, doneAt: string)
    requires OccursAt(message, word, i) && Lower(word) == "verification"
    ensures Classify(serviceName, Raised(message), shotAt, doneAt).status == TWO_FA_REQUIRED
  {
    LowerOccurs(message, word, i);
    assert OccursAt(Lower(message), "verification", i);
  }

  /** "2FA" is recognised only in upper case: a message that says "2fa"
      and does not mention verification is a failure. */
  lemma LowerCase2faFails(serviceName: string, message: string, shotAt: string, doneAt: string)
    requires message == "enter the 2fa code"
    ensures Classify(serviceName, Raised(message), shotAt, doneAt).status == FAILED
  {
    assert 'F' !in message;
    assert !Contains(message, "2FA") by {
      if Contains(message, "2FA") {
        ContainsChar(message, "2FA", 'F');
      }
    }
    assert 'v' !in Lower(message) by {
      forall k | 0 <= k < |message| ensures Lower(message)[k] != 'v' {
        assert message[k] != 'v' && message[k] != 'V';
      }
    }
    assert !Contains(Lower(message), "verification") by {
      if Contains(Lower(message), "verification") {
        ContainsChar(Lower(message), "verification", 'v');
      }
    }
  }

  /** A browser session: its configuration, the screenshots taken in it and
      how many times it has been closed. */
  class Browser {
    const config: BrowserConfig
    var screenshots: seq<string>
    var closeCount: nat

    constructor (config: BrowserConfig)
      ensures this.config == config && screenshots == [] && closeCount == 0
    {
      this.config := config;
      screenshots := [];
      closeCount := 0;
    }

    method Screenshot(path: string)
      modifies this
      ensures screenshots == old(screenshots) + [path] && closeCount == old(closeCount)
    {
      screenshots := screenshots + [path];
    }

    method Close()
      modifies this
      ensures closeCount == old(closeCount) + 1 && screenshots == old(screenshots)
    {
      closeCount := closeCount + 1;
    }
  }

  /** `cancel_subscription`: opens a browser with the configuration for
      `useSteel`, builds the agent, runs it (its outcome is `run`; the login
      URL, email and password only enter the agent's instructions),
      classifies the outcome and closes the browser in the `finally` clause.
      `construction` is the message of an exception raised while building
      the agent, before the `try`; `closeFailure` that of an exception
      raised by closing the browser. Either escapes to the caller. */
  method CancelSubscription(
    serviceName: string, loginUrl: string, email: string, password: string,
    useSteel: bool, steelCdpUrl: Option<string>,
    construction: Option<string>, run: AgentRun, closeFailure: Option<string>,
    shotAt: string, doneAt: string)
    returns (outcome: AgentCall, browser: Browser)
    ensures fresh(browser) && browser.config == GetBrowserConfig(useSteel, steelCdpUrl)
    ensures construction.Some? ==>
              outcome == Threw(construction.value) && browser.closeCount == 0 && browser.screenshots == []
    ensures construction.None? ==>
              && browser.closeCount == 1
              && browser.screenshots == (if run.Completed? then [ScreenshotPath(serviceName, shotAt)] else [])
              && outcome == if closeFailure.Some? then Threw(closeFailure.value)
                            else Returned(Classify(serviceName, run, shotAt, doneAt))
  {
    browser := new Browser(GetBrowserConfig(useSteel, steelCdpUrl));
    if construction.Some? {
      return Threw(construction.value), browser;
    }
    if run.Completed? {
      browser.Screenshot(ScreenshotPath(serviceName, shotAt));
    }
    var result := Classify(serviceName, run, shotAt, doneAt);
    // the `finally` clause: an exception from `close` replaces the result
    browser.Close();
    if closeFailure.Some? {
      return Threw(closeFailure.value), browser;
    }
    outcome := Returned(result);
  }
}
