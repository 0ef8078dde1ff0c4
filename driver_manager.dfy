/**
 * The session provider: browser and headless selection at class initialisation,
 * one thread's lazily filled driver slot, and its unconditional release.
 */
module Drivers {
  import opened Wrappers
  import opened JavaText
  import Settings

  datatype BrowserKind = Chrome | Firefox

  /** A handle to one browser session; the session number stands for its identity. */
  datatype Driver = Driver(session: nat, kind: BrowserKind, headless: bool)

  /** A call the harness makes into the browser-automation library. */
  datatype BrowserCall =
    | Launch(kind: BrowserKind, headless: bool)   // setupChromeDriver / setupFirefoxDriver
    | Screenshot(driver: Driver)                  // getScreenshotAs
    | Quit(driver: Driver)                        // quit

  /** What the library does with one attempt to start and configure a session. */
  datatype LaunchOutcome =
    | Launched(session: nat)
      // the driver setup or the driver constructor threw
    | LaunchFailed(cause: string)
      // the session started, then maximize or a timeout setting threw
    | ConfigureFailed(session: nat, cause: string)

  /** The RuntimeException initializeDriver throws, wrapping the library's error. */
  datatype DriverError = InitializationFailed(message: string, cause: string)

  const InitializationFailedMessage := "WebDriver initialization failed"

  /** The browser-automation library, observed as the calls made into it. */
  class Browser {
    var calls: seq<BrowserCall>

    constructor ()
      ensures calls == []
    {
      calls := [];
    }
  }

  /** BROWSER: the browser system property, else Config.browser(), else "chrome",
      lower-cased. */
  function BrowserName(systemProperty: Option<string>, configured: Option<string>): (name: string)
    ensures systemProperty.Some? ==> name == ToLower(systemProperty.value)
    ensures systemProperty.None? && configured.Some? ==> name == ToLower(configured.value)
    ensures systemProperty.None? && configured.None? ==> name == "chrome"
    ensures forall i :: 0 <= i < |name| ==> !IsUpperAscii(name[i])
  {
    var chosen := match systemProperty
      case Some(s) => s
      case None => (match configured case Some(c) => c case None => "chrome");
    assert ToLower("chrome") == "chrome";
    ToLower(chosen)
  }

  /** The switch in initializeDriver: "firefox" selects Firefox, any other name Chrome. */
  function SelectKind(name: string): (kind: BrowserKind)
    ensures kind == Firefox <==> name == "firefox"
  {
    if name == "firefox" then Firefox else Chrome
  }

  /** The browser initializeDriver sets up, for the given system property and config
      value: Firefox exactly when the chosen name lower-cases to "firefox". */
  lemma BrowserChoice(systemProperty: Option<string>, configured: Option<string>)
    ensures SelectKind(BrowserName(systemProperty, configured)) == Firefox <==>
      (systemProperty.Some? && ToLower(systemProperty.value) == "firefox") ||
      (systemProperty.None? && configured.Some? && ToLower(configured.value) == "firefox")
    ensures systemProperty.None? && configured.None? ==> SelectKind(BrowserName(systemProperty, configured)) == Chrome
  {
  }

  /** HEADLESS: Boolean.parseBoolean of the headless system property, else of
      String.valueOf(Config.headlessMode()). */
  function HeadlessFlag(systemProperty: Option<string>, configured: bool): (headless: bool)
    ensures systemProperty.None? ==> headless == configured
    ensures systemProperty.Some? ==> (headless <==> ToLower(systemProperty.value) == "true")
  {
    assert ToLower("true") == "true";
    assert ToLower("false") == "false";
    ParseBoolean(match systemProperty case Some(s) => s case None => BoolToString(configured))
  }

  /** The static state of DriverManager as one thread sees it. */
  class DriverManager {
    const browser: string
    const headless: bool
    const library: Browser
    var slot: Option<Driver>

    /** Class initialisation. */
    constructor (config: Settings.Config, browserProperty: Option<string>, headlessProperty: Option<string>, library: Browser)
      ensures browser == BrowserName(browserProperty, config.Browser())
      ensures headless == HeadlessFlag(headlessProperty, config.HeadlessMode())
      ensures this.library == library && slot.None?
    {
      browser := BrowserName(browserProperty, config.Browser());
      headless := HeadlessFlag(headlessProperty, config.HeadlessMode());
      this.library := library;
      slot := None;
    }

    /** getDriver: the stored handle, or a new session when the slot is empty. */
    method GetDriver(launch: LaunchOutcome) returns (r: Result<Driver, DriverError>)
      modifies this, library
      ensures old(slot).Some? ==> r == Success(old(slot).value) && slot == old(slot) && library.calls == old(library.calls)
      ensures old(slot).None? ==> library.calls == old(library.calls) + [Launch(SelectKind(browser), headless)]
      ensures old(slot).None? && launch.Launched? ==>
        r == Success(Driver(launch.session, SelectKind(browser), headless))
      ensures old(slot).None? && !launch.Launched? ==>
        r == Failure(InitializationFailed(InitializationFailedMessage, launch.cause)) && slot.None?
      ensures r.Success? ==> slot == Some(r.value)
    {
      if slot.None? {
        var failure := InitializeDriver(launch);
        if failure.Fail? {
          return Failure(failure.error);
        }
      }
      r := Success(slot.value);
    }

    /** initializeDriver: the slot is set only once the session is fully configured;
        on any failure it keeps what it held. */
    method InitializeDriver(launch: LaunchOutcome) returns (r: Outcome<DriverError>)
      modifies this, library
      ensures library.calls == old(library.calls) + [Launch(SelectKind(browser), headless)]
      ensures launch.Launched? ==> r.Pass? && slot == Some(Driver(launch.session, SelectKind(browser), headless))
      ensures !launch.Launched? ==> r == Fail(InitializationFailed(InitializationFailedMessage, launch.cause)) && slot == old(slot)
    {
      var kind := SelectKind(browser);
      library.calls := library.calls + [Launch(kind, headless)];
      match launch {
        case Launched(session) =>
          slot := Some(Driver(session, kind, headless));
          r := Pass;
        case LaunchFailed(cause) =>
          r := Fail(InitializationFailed(InitializationFailedMessage, cause));
        case ConfigureFailed(_, cause) =>
          r := Fail(InitializationFailed(InitializationFailedMessage, cause));
      }
    }

    /** quitDriver: quits the stored session, if any, and always empties the slot.
        Whether quit throws makes no difference: the error is logged, not raised, and
        the slot is removed in a finally block. */
    method QuitDriver()
      modifies this, library
      ensures slot.None?
      ensures old(slot).None? ==> library.calls == old(library.calls)
      ensures old(slot).Some? ==> library.calls == old(library.calls) + [Quit(old(slot).value)]
    {
      if slot.Some? {
        library.calls := library.calls + [Quit(slot.value)];
        slot := None;
      }
    }
  }

  /** Calling getDriver twice: the second call returns the first call's handle and
      starts nothing. */
  method GetDriverTwice(m: DriverManager, first: LaunchOutcome, second: LaunchOutcome)
    returns (a: Result<Driver, DriverError>, b: Result<Driver, DriverError>)
    modifies m, m.library
    ensures a.Success? ==> b == a
    ensures a.Success? ==> m.library.calls == old(m.library.calls) + (if old(m.slot).None? then [Launch(SelectKind(m.browser), m.headless)] else [])
  {
    a := m.GetDriver(first);
    b := m.GetDriver(second);
  }
}
