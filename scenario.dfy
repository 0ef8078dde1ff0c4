/**
 * One scenario's context and the Before/After hooks around it. TestContext and Hooks
 * share this module because each refers to the other: the screenshot callback that
 * TestContext holds is a closure over a Hooks object, and Hooks uses TestContext.
 */
module Scenario {
  import opened Wrappers
  import opened JavaText
  import opened Drivers

  /** The product fetched from the API, only carried from step to step. */
  datatype Product = Product(id: int, title: string, price: real)

  /** What happens when a screenshot is taken and attached to the report. */
  datatype CaptureOutcome = Captured(png: seq<bv8>) | CaptureFailed(message: string)

  /** A named attachment in the report, with the session the image was taken of. */
  datatype Attachment = Attachment(name: string, mediaType: string, extension: string, source: Driver, png: seq<bv8>)

  function PngAttachment(name: string, source: Driver, png: seq<bv8>): Attachment {
    Attachment(name, "image/png", "png", source, png)
  }

  const FinalScreenshotName := "Test Failed - Final Screenshot"

  /** The name of the attachment the callback makes on its n-th invocation. */
  function StepLabel(n: int): string {
    "Action " + IntToString(n) + " (highlighted)"
  }

  /** The name is "Action ", the invocation number in decimal, then " (highlighted)". */
  lemma StepLabelShape(n: int)
    ensures var name := StepLabel(n);
      && |name| == 21 + |IntToString(n)|
      && name[..7] == "Action " && name[7..|name| - 14] == IntToString(n) && name[|name| - 14..] == " (highlighted)"
  {
  }

  /** Distinct invocation numbers give distinct attachment names. */
  lemma StepLabelInjective(m: int, n: int)
    requires StepLabel(m) == StepLabel(n)
    ensures m == n
  {
    var a, b := StepLabel(m), StepLabel(n);
    assert a[7..|a| - 14] == IntToString(m);
    assert b[7..|b| - 14] == IntToString(n);
    IntToStringInjective(m, n);
  }

  /** The scenario report, observed as its attachments in order. */
  class Report {
    var attachments: seq<Attachment>

    constructor ()
      ensures attachments == []
    {
      attachments := [];
    }
  }

  /** The per-scenario context shared by hooks and steps. */
  class TestContext {
    var driver: Option<Driver>
    var apiProduct: Option<Product>

    constructor ()
      ensures driver.None? && apiProduct.None?
    {
      driver := None;
      apiProduct := None;
    }

    method SetDriver(d: Option<Driver>)
      modifies this
      ensures driver == d && apiProduct == old(apiProduct)
    {
      driver := d;
    }

    method SetApiProduct(p: Option<Product>)
      modifies this
      ensures apiProduct == p && driver == old(driver)
    {
      apiProduct := p;
    }
  }

  /** The one ScreenshotCallback the repository defines: the closure Hooks.setUp
      registers, over that Hooks object. */
  datatype ScreenshotCallback = StepCapture(hooks: Hooks)

  /** TestContext's static screenshot-callback field. */
  class CallbackSlot {
    var callback: Option<ScreenshotCallback>

    constructor ()
      ensures callback.None?
    {
      callback := None;
    }

    /** setScreenshotCallback: replaces whatever was registered. */
    method SetScreenshotCallback(cb: Option<ScreenshotCallback>)
      modifies this
      ensures callback == cb
    {
      callback := cb;
    }

    /** takeScreenshotCallback: runs the registered callback once with the driver; with
        none registered it changes nothing, as its empty frame says. */
    method TakeScreenshotCallback(d: Driver, outcome: CaptureOutcome)
      modifies if callback.Some? then {callback.value.hooks, callback.value.hooks.report, callback.value.hooks.drivers.library} else {}
      ensures callback.Some? ==>
        var h := callback.value.hooks;
        && h.stepCounter == Wrap32(old(h.stepCounter) + 1)
        && h.drivers.library.calls == old(h.drivers.library.calls) + [Screenshot(d)]
        && h.report.attachments == old(h.report.attachments) + StepCaptureResult(h.stepCounter, d, outcome)
    {
      if callback.Some? {
        callback.value.hooks.OnScreenshot(d, outcome);
      }
    }
  }

  /** What one step capture adds to the report: an attachment named after the
      invocation number when the capture succeeded, nothing when it failed. */
  function StepCaptureResult(n: int, source: Driver, outcome: CaptureOutcome): (added: seq<Attachment>)
    ensures |added| <= 1
    ensures added != [] <==> outcome.Captured?
    ensures added != [] ==> added[0].name == StepLabel(n) && added[0].source == source && added[0].png == outcome.png
    ensures added != [] ==> added[0].mediaType == "image/png" && added[0].extension == "png"
  {
    match outcome
    case Captured(png) => [PngAttachment(StepLabel(n), source, png)]
    case CaptureFailed(_) => []
  }

  /** The Cucumber hooks of one scenario. */
  class Hooks {
    const ctx: TestContext
    const callbacks: CallbackSlot
    const drivers: DriverManager
    const report: Report
    var stepCounter: int

    constructor (ctx: TestContext, callbacks: CallbackSlot, drivers: DriverManager, report: Report)
      ensures this.ctx == ctx && this.callbacks == callbacks && this.drivers == drivers && this.report == report
      ensures stepCounter == 0
    {
      this.ctx := ctx;
      this.callbacks := callbacks;
      this.drivers := drivers;
      this.report := report;
      stepCounter := 0;
    }

    /** The Before hook: reset the counter, register the step callback, and put the
        thread's driver into the context. A failed initialisation is raised and leaves
        the context as it was. */
    method SetUp(launch: LaunchOutcome) returns (r: Outcome<DriverError>)
      modifies this, callbacks, drivers, drivers.library, ctx
      ensures stepCounter == 0
      ensures callbacks.callback == Some(StepCapture(this))
      ensures ctx.apiProduct == old(ctx.apiProduct)
      ensures old(drivers.slot).Some? ==>
        r.Pass? && drivers.slot == old(drivers.slot) && drivers.library.calls == old(drivers.library.calls)
      ensures old(drivers.slot).None? ==>
        drivers.library.calls == old(drivers.library.calls) + [Launch(SelectKind(drivers.browser), drivers.headless)]
      ensures old(drivers.slot).None? && launch.Launched? ==>
        r.Pass? && drivers.slot == Some(Driver(launch.session, SelectKind(drivers.browser), drivers.headless))
      ensures old(drivers.slot).None? && !launch.Launched? ==>
        r == Fail(InitializationFailed(InitializationFailedMessage, launch.cause)) && drivers.slot.None?
      ensures r.Pass? ==> ctx.driver.Some? && ctx.driver == drivers.slot
      ensures r.Fail? ==> ctx.driver == old(ctx.driver)
    {
      stepCounter := 0;
      callbacks.SetScreenshotCallback(Some(StepCapture(this)));
      var driver := drivers.GetDriver(launch);
      match driver {
        case Failure(e) =>
          r := Fail(e);
        case Success(d) =>
          ctx.SetDriver(Some(d));
          r := Pass;
      }
    }

    /** The body of the registered callback: count the invocation, then try to take
        and attach a screenshot; a failed capture is printed and swallowed. */
    method OnScreenshot(d: Driver, outcome: CaptureOutcome)
      modifies this, report, drivers.library
      ensures stepCounter == Wrap32(old(stepCounter) + 1)
      ensures drivers.library.calls == old(drivers.library.calls) + [Screenshot(d)]
      ensures report.attachments == old(report.attachments) + StepCaptureResult(stepCounter, d, outcome)
    {
      stepCounter := Wrap32(stepCounter + 1);
      drivers.library.calls := drivers.library.calls + [Screenshot(d)];
      match outcome {
        case Captured(png) =>
          report.attachments := report.attachments + [PngAttachment(StepLabel(stepCounter), d, png)];
        case CaptureFailed(_) =>
      }
    }

    /** The After hook: with no driver in the context it does nothing; otherwise a
        failed scenario gets one best-effort final screenshot, and the driver is
        released in every case. Nothing is raised. */
    method TearDown(failed: bool, finalCapture: CaptureOutcome)
      modifies drivers, drivers.library, report
      ensures ctx.driver.None? ==>
        drivers.slot == old(drivers.slot) && drivers.library.calls == old(drivers.library.calls)
        && report.attachments == old(report.attachments)
      ensures ctx.driver.Some? ==> drivers.slot.None?
      ensures ctx.driver.Some? ==>
        drivers.library.calls == old(drivers.library.calls)
          + (if failed then [Screenshot(ctx.driver.value)] else [])
          + (if old(drivers.slot).Some? then [Quit(old(drivers.slot).value)] else [])
      ensures ctx.driver.Some? ==>
        report.attachments == old(report.attachments)
          + (if failed && finalCapture.Captured? then [PngAttachment(FinalScreenshotName, ctx.driver.value, finalCapture.png)] else [])
    {
      if ctx.driver.Some? {
        var d := ctx.driver.value;
        if failed {
          drivers.library.calls := drivers.library.calls + [Screenshot(d)];
          match finalCapture {
            case Captured(png) =>
              report.attachments := report.attachments + [PngAttachment(FinalScreenshotName, d, png)];
            case CaptureFailed(_) =>
          }
        }
        drivers.QuitDriver();
      }
    }
  }

  // ---------------------------------------------------------------- whole scenarios

  /** The attachments the step captures of a scenario make, in invocation order. */
  function StepAttachments(source: Driver, outcomes: seq<CaptureOutcome>): seq<Attachment> {
    if outcomes == [] then []
    else StepAttachments(source, outcomes[..|outcomes| - 1]) + StepCaptureResult(|outcomes|, source, outcomes[|outcomes| - 1])
  }

  /** The invocation numbers whose capture succeeded, in order. */
  function CapturedSteps(outcomes: seq<CaptureOutcome>): seq<int> {
    if outcomes == [] then []
    else CapturedSteps(outcomes[..|outcomes| - 1]) + (if outcomes[|outcomes| - 1].Captured? then [|outcomes|] else [])
  }

  /** The i-th step attachment is named after the i-th successful invocation; those
      numbers lie in 1..|outcomes| and increase, so no two attachments share a name. */
  lemma {:induction false} StepAttachmentsNumbered(source: Driver, outcomes: seq<CaptureOutcome>)
    ensures |StepAttachments(source, outcomes)| == |CapturedSteps(outcomes)|
    ensures forall i :: 0 <= i < |CapturedSteps(outcomes)| ==>
      StepAttachments(source, outcomes)[i].name == StepLabel(CapturedSteps(outcomes)[i])
    ensures forall i :: 0 <= i < |CapturedSteps(outcomes)| ==> 1 <= CapturedSteps(outcomes)[i] <= |outcomes|
    ensures forall i, j :: 0 <= i < j < |CapturedSteps(outcomes)| ==> CapturedSteps(outcomes)[i] < CapturedSteps(outcomes)[j]
  {
    if outcomes != [] {
      StepAttachmentsNumbered(source, outcomes[..|outcomes| - 1]);
    }
  }

  /** No two step attachments of a scenario have the same name. */
  lemma StepAttachmentNamesDistinct(source: Driver, outcomes: seq<CaptureOutcome>, i: nat, j: nat)
    requires i < j < |StepAttachments(source, outcomes)|
    ensures StepAttachments(source, outcomes)[i].name != StepAttachments(source, outcomes)[j].name
  {
    StepAttachmentsNumbered(source, outcomes);
    var steps := CapturedSteps(outcomes);
    if StepLabel(steps[i]) == StepLabel(steps[j]) {
      StepLabelInjective(steps[i], steps[j]);
    }
  }

  /** When every capture succeeds the attachments are "Action 1 (highlighted)",
      "Action 2 (highlighted)", ... */
  lemma {:induction false} AllCapturedNumberedFromOne(source: Driver, outcomes: seq<CaptureOutcome>)
    requires forall i :: 0 <= i < |outcomes| ==> outcomes[i].Captured?
    ensures |StepAttachments(source, outcomes)| == |outcomes|
    ensures forall i :: 0 <= i < |outcomes| ==>
      StepAttachments(source, outcomes)[i] == PngAttachment(StepLabel(i + 1), source, outcomes[i].png)
  {
    if outcomes != [] {
      var n := |outcomes|;
      var prefix := outcomes[..n - 1];
      assert forall i :: 0 <= i < |prefix| ==> prefix[i] == outcomes[i];
      AllCapturedNumberedFromOne(source, prefix);
      var earlier := StepAttachments(source, prefix);
      var latest := PngAttachment(StepLabel(n), source, outcomes[n - 1].png);
      assert StepAttachments(source, outcomes) == earlier + [latest];
      forall i | 0 <= i < n
        ensures StepAttachments(source, outcomes)[i] == PngAttachment(StepLabel(i + 1), source, outcomes[i].png)
      {
        if i < n - 1 {
          assert (earlier + [latest])[i] == earlier[i];
        }
      }
    }
  }

  /** n screenshot calls on one session. */
  function Screenshots(d: Driver, n: nat): seq<BrowserCall> {
    seq(n, _ => Screenshot(d))
  }

  /** One more step adds one screenshot call and that step's capture result. */
  lemma NextStep(d: Driver, steps: seq<CaptureOutcome>, i: nat)
    requires i < |steps|
    ensures StepAttachments(d, steps[..i + 1]) == StepAttachments(d, steps[..i]) + StepCaptureResult(i + 1, d, steps[i])
    ensures Screenshots(d, i + 1) == Screenshots(d, i) + [Screenshot(d)]
  {
    assert steps[..i + 1][..i] == steps[..i];
  }

  /** One scenario as the Cucumber runner drives it on a fresh thread: the Before hook;
      when it passed, the steps, each interaction invoking the registered callback; then
      the After hook with the scenario's status. The session acquired in Before is quit
      exactly once, and the report holds the numbered step screenshots and, for a failed
      scenario, the final one. */
  method RunScenario(hooks: Hooks, launch: LaunchOutcome, steps: seq<CaptureOutcome>, stepFailed: bool, finalCapture: CaptureOutcome)
    returns (failed: bool)
    requires hooks.drivers.slot.None? && hooks.ctx.driver.None?
    requires |steps| <= MaxInt
    modifies hooks, hooks.callbacks, hooks.drivers, hooks.drivers.library, hooks.ctx, hooks.report
    ensures failed <==> stepFailed || !launch.Launched?
    ensures hooks.drivers.slot.None?
    ensures !launch.Launched? ==>
      hooks.drivers.library.calls == old(hooks.drivers.library.calls) + [Launch(SelectKind(hooks.drivers.browser), hooks.drivers.headless)]
      && hooks.report.attachments == old(hooks.report.attachments)
    ensures launch.Launched? ==>
      var d := Driver(launch.session, SelectKind(hooks.drivers.browser), hooks.drivers.headless);
      && hooks.stepCounter == |steps|
      && hooks.drivers.library.calls == old(hooks.drivers.library.calls)
        + [Launch(SelectKind(hooks.drivers.browser), hooks.drivers.headless)]
        + Screenshots(d, |steps|)
        + (if stepFailed then [Screenshot(d)] else [])
        + [Quit(d)]
      && hooks.report.attachments == old(hooks.report.attachments)
        + StepAttachments(d, steps)
        + (if stepFailed && finalCapture.Captured? then [PngAttachment(FinalScreenshotName, d, finalCapture.png)] else [])
  {
    var setUp := hooks.SetUp(launch);
    if setUp.Pass? {
      var d := hooks.ctx.driver.value;
      ghost var calls0 := hooks.drivers.library.calls;
      ghost var attachments0 := hooks.report.attachments;
      for i := 0 to |steps|
        invariant hooks.callbacks.callback == Some(StepCapture(hooks))
        invariant hooks.ctx.driver == Some(d) && hooks.drivers.slot == Some(d)
        invariant hooks.stepCounter == i
        invariant hooks.drivers.library.calls == calls0 + Screenshots(d, i)
        invariant hooks.report.attachments == attachments0 + StepAttachments(d, steps[..i])
      {
        hooks.callbacks.TakeScreenshotCallback(d, steps[i]);
        NextStep(d, steps, i);
      }
      assert steps[..|steps|] == steps;
    }
    failed := setUp.Fail? || stepFailed;
    hooks.TearDown(failed, finalCapture);
  }

  /** After setScreenshotCallback, invoking the slot runs the new callback and leaves
      the counter of the one it replaced alone. */
  method ReplacedCallbackNotInvoked(slot: CallbackSlot, previous: Hooks, latest: Hooks, d: Driver, outcome: CaptureOutcome)
    requires previous != latest
    requires slot.callback == Some(StepCapture(previous))
    modifies slot, latest, latest.report, latest.drivers.library
    ensures slot.callback == Some(StepCapture(latest))
    ensures previous.stepCounter == old(previous.stepCounter)
    ensures latest.stepCounter == Wrap32(old(latest.stepCounter) + 1)
  {
    slot.SetScreenshotCallback(Some(StepCapture(latest)));
    slot.TakeScreenshotCallback(d, outcome);
  }
}
