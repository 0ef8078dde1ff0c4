# sauce-mvn-bdd: configuration, driver slot and scenario hooks

A Dafny model of the sequential core beneath a Selenium/Cucumber test harness for a
sample shop:

- **Configuration store** (`Settings`, file `config.dfy`). The `Config` class holds the
  properties map. Its constructor loads application.properties, then applies the `.env`
  lines on top. `LoadEnvFile` is the source's loop: trim each line, skip blank and `#`
  lines, split on the first `=`, trim both halves, and let the last write win. It is
  proved equal to the line-by-line function `ApplyLines`. The typed getters follow
  `Integer.parseInt` and `Boolean.parseBoolean`, which live in `JavaText`
  (`java_text.dfy`) together with `String.trim`, `split("=", 2)`, `toLowerCase` and
  `Integer.toString`.
- **Session provider** (`Drivers`, file `driver_manager.dfy`). Browser and headless
  selection are pure functions of the system properties and the config. The
  `DriverManager` class holds one thread's driver slot. `GetDriver` fills the slot
  lazily; `QuitDriver` empties it unconditionally. Calls into the browser library
  (launch, screenshot, quit) are appended to `Browser.calls`. The outcomes of a launch
  and of a screenshot are parameters (`LaunchOutcome`, `CaptureOutcome`). A quit has no
  outcome: `quitDriver` catches an error from `quit` and empties the slot in any case.
- **Scenario context and hooks** (`Scenario`, file `scenario.dfy`). This holds
  `TestContext`, TestContext's static callback field (`CallbackSlot`), the `Hooks` with
  their step counter, and the report's attachments. `RunScenario` drives one scenario
  the way the Cucumber runner does: Before, the step interactions that fire the
  callback, then After. It proves that the acquired session is quit exactly once and
  that the step screenshots are numbered 1, 2, 3, …

Java's `null` is `Option.None`. A thrown exception is `Result.Failure` or
`Outcome.Fail`. Java's static fields become fields of one object per class
(`Config`, `DriverManager`, `CallbackSlot`). `TestContext` and `Hooks` share one module
because each refers to the other, and Dafny modules cannot import each other in a cycle.

Two behaviours of the code worth knowing. `getBooleanProperty` never falls back to its
default for a value that is present: any value other than "true" (in any case) yields
false (`Settings.Config.GetBooleanPropertyOr`). Every browser name except "firefox"
selects Chrome, unknown names included (`Drivers.SelectKind`).

One consequence of the code, kept in the model: `initializeDriver` stores the driver
only after maximize and the timeout settings succeed. If one of those throws
(`LaunchOutcome.ConfigureFailed`), the session has started but is never stored. So
`quitDriver` never quits it (`Drivers.DriverManager.InitializeDriver`, `Scenario.RunScenario`).

## Model

| member | source | states |
|---|---|---|
| `JavaText.Trim` | src/main/java/com/sauce/config/Config.java:50 | the trimmed line is empty exactly when every char is at most U+0020; otherwise both of its ends are non-blank |
| `JavaText.TrimPadded` | src/main/java/com/sauce/config/Config.java:50 | a text with non-blank ends, padded with blanks on either side, trims to exactly that text, so trimming is fully determined |
| `JavaText.TrimIdempotent` | src/main/java/com/sauce/config/Config.java:56 | trimming an already trimmed key or value changes nothing |
| `JavaText.SplitOnFirst` | src/main/java/com/sauce/config/Config.java:54-55 | one part (the whole line) exactly when there is no `=`; otherwise two parts rejoining to the line around its first `=` |
| `JavaText.SplitOnFirstUnique` | src/main/java/com/sauce/config/Config.java:54 | any split around an `=` with no `=` before it is the split the line gets, so later `=` stay in the value |
| `JavaText.ParseInt` | src/main/java/com/sauce/config/Config.java:93 | a parsed value is a Java int, the text is an optional sign followed by digits only, and a negative result needs a leading `-` |
| `JavaText.ParseIntDigits` | src/main/java/com/sauce/config/Config.java:93 | an optional sign followed by digits parses to its signed value (leading zeros, "+" and "-0" included) when that is a Java int, and to None outside the int range |
| `JavaText.ParseIntToString` | src/main/java/com/sauce/config/Config.java:93 | every Java int printed in decimal parses back to itself |
| `JavaText.IntToString` | src/test/java/com/sauce/hooks/Hooks.java:30 | non-empty, and starts with `-` exactly for a negative number; it parses back to the number and is injective (the two lemmas below) |
| `JavaText.IntToStringCanonical` | src/test/java/com/sauce/hooks/Hooks.java:30 | after the optional `-` come exactly the decimal digits of the magnitude, with no `+` and no leading zero |
| `JavaText.IntToStringInjective` | src/test/java/com/sauce/hooks/Hooks.java:30 | two numbers with the same decimal text are equal |
| `JavaText.ToLower` | src/main/java/com/sauce/utils/DriverManager.java:27 | same length, each char replaced by its lower-case ASCII form, so no upper-case ASCII letter is left and every other char stays in place |
| `JavaText.BoolToString` | src/main/java/com/sauce/utils/DriverManager.java:28 | String.valueOf(b) parses back to b with Boolean.parseBoolean |
| `JavaText.ParseBoolean` | src/main/java/com/sauce/config/Config.java:109 | true exactly when the text lower-cases to "true" |
| `JavaText.Wrap32` | src/test/java/com/sauce/hooks/Hooks.java:27 | the incremented counter stays in the int range, equals the plain sum inside the range and wraps modulo 2^32 outside it |
| `Settings.ParseEnvLine` | src/main/java/com/sauce/config/Config.java:50-56 | a line sets nothing exactly when it trims to empty, starts with `#` or has no `=`; a set key has no `=`, and key and value are trimmed |
| `Settings.EnvLineSplitsAtFirstEquals` | src/main/java/com/sauce/config/Config.java:54-56 | a trimmed line `key=value` with no `=` in key stores trim(key) with trim(value), whatever the value contains |
| `Settings.EmptyValueStored` | src/main/java/com/sauce/config/Config.java:54-56 | a line `k=` stores k with the empty string |
| `Settings.ApplyLines` | src/main/java/com/sauce/config/Config.java:49-57 | the `.env` lines never remove a key, and every key they add is set by some line |
| `Settings.LastLineWins` | src/main/java/com/sauce/config/Config.java:17-20 | the last `.env` line that sets a key decides its value, over earlier lines and over application.properties |
| `Settings.LastEntryWins` | src/main/java/com/sauce/config/Config.java:56 | after a run of setProperty calls, a key holds the value of the last call that set it |
| `Settings.UnsetKeyUnchanged` | src/main/java/com/sauce/config/Config.java:56 | setProperty calls on other keys leave a key's value, or its absence, as it was |
| `Settings.ApplyNextLine` | src/main/java/com/sauce/config/Config.java:49-57 | one more line adds exactly that line's update on top of the earlier lines, so the lines are applied in file order |
| `Settings.UnsetKeyKept` | src/main/java/com/sauce/config/Config.java:49-57 | a key that no `.env` line sets keeps its application.properties value, or stays absent |
| `Settings.SkippedEntryRemovable` | src/main/java/com/sauce/config/Config.java:50-53 | an entry that sets nothing can be removed from any position without changing the result |
| `Settings.SkippedLinesIgnored` | src/main/java/com/sauce/config/Config.java:50-53 | a blank, comment or `=`-less line can be inserted anywhere among the lines without changing the properties |
| `Settings.Config.constructor` | src/main/java/com/sauce/config/Config.java:17-20 | the properties are the `.env` lines applied over application.properties, or application.properties alone without a `.env` file |
| `Settings.Config.LoadEnvFile` | src/main/java/com/sauce/config/Config.java:39-63 | the loop leaves the properties equal to the lines applied one by one in order; no file changes nothing |
| `Settings.Config.GetProperty` | src/main/java/com/sauce/config/Config.java:85 | present exactly when the key is stored, and then the stored value |
| `Settings.Config.Browser` | src/main/java/com/sauce/config/Config.java:71 | present exactly when `browser` is stored, and then its value |
| `Settings.Config.GetIntProperty` | src/main/java/com/sauce/config/Config.java:89-99 | None for an absent key or an unparsable value, the parsed Java int otherwise; there is no error case |
| `Settings.Config.GetIntPropertyOr` | src/main/java/com/sauce/config/Config.java:101-104 | the default exactly when the key is absent or its value does not parse, the parsed value otherwise |
| `Settings.Config.GetBooleanProperty` | src/main/java/com/sauce/config/Config.java:106-112 | present exactly when the key is, and then true exactly when the value lower-cases to "true" |
| `Settings.Config.GetBooleanPropertyOr` | src/main/java/com/sauce/config/Config.java:114-117 | the default only for an absent key; a present value other than "true" in any case gives false |
| `Settings.Config.SlowMoMs` | src/main/java/com/sauce/config/Config.java:73-75 | 500 when slow.mo is absent or does not parse as an int, its int value when it does |
| `Settings.Config.HeadlessMode` | src/main/java/com/sauce/config/Config.java:77 | false when headless.mode is absent, otherwise whether it reads "true" in any case |
| `Settings.Config.DefaultTimeout` | src/main/java/com/sauce/config/Config.java:79 | 10 when default.timeout is absent or does not parse as an int, its int value when it does |
| `Settings.Config.LongTimeout` | src/main/java/com/sauce/config/Config.java:81-83 | 30 when long.timeout is absent or does not parse as an int, its int value when it does |
| `Settings.IntPropertyRoundTrip` | src/main/java/com/sauce/config/Config.java:89-104 | a stored decimal int reads back as that int, with or without a default |
| `Drivers.BrowserName` | src/main/java/com/sauce/utils/DriverManager.java:26-27 | the system property if set, else the config value, else "chrome", always lower-cased |
| `Drivers.SelectKind` | src/main/java/com/sauce/utils/DriverManager.java:50-58 | Firefox exactly for "firefox"; every other name, "chrome" and unknown ones included, selects Chrome |
| `Drivers.BrowserChoice` | src/main/java/com/sauce/utils/DriverManager.java:26-27 | Firefox is launched exactly when the chosen name lower-cases to "firefox"; with nothing configured, Chrome |
| `Drivers.HeadlessFlag` | src/main/java/com/sauce/utils/DriverManager.java:28 | without the headless system property the flag equals Config.headlessMode(); with it, whether it reads "true" in any case |
| `Drivers.DriverManager.constructor` | src/main/java/com/sauce/utils/DriverManager.java:25-33 | BROWSER and HEADLESS come from the system properties and the config as above; the slot starts empty |
| `Drivers.DriverManager.GetDriver` | src/main/java/com/sauce/utils/DriverManager.java:39-44 | a filled slot is returned with no launch; an empty one is filled by a launch of the selected browser, or stays empty with the wrapping error |
| `Drivers.DriverManager.InitializeDriver` | src/main/java/com/sauce/utils/DriverManager.java:46-73 | one launch call; the slot is set only on full success; any failure raises "WebDriver initialization failed" with the cause and leaves the slot as it was |
| `Drivers.DriverManager.QuitDriver` | src/main/java/com/sauce/utils/DriverManager.java:131-143 | the slot is empty afterwards; one quit call when it held a driver, nothing at all when it was empty; nothing is raised |
| `Drivers.GetDriverTwice` | src/main/java/com/sauce/utils/DriverManager.java:39-44 | a second getDriver returns the first one's handle and launches nothing |
| `Scenario.StepLabelInjective` | src/test/java/com/sauce/hooks/Hooks.java:30 | two invocations with different numbers get different attachment names |
| `Scenario.StepLabelShape` | src/test/java/com/sauce/hooks/Hooks.java:30 | "Action ", then the invocation number in decimal, then " (highlighted)" |
| `Scenario.StepCaptureResult` | src/test/java/com/sauce/hooks/Hooks.java:28-32 | one PNG attachment named after the invocation number, of the given session's image, exactly when the capture succeeds; nothing otherwise |
| `Scenario.TestContext.SetDriver` | src/main/java/com/sauce/context/TestContext.java:14-15 | the driver is the one given; the API product is unchanged |
| `Scenario.TestContext.SetApiProduct` | src/main/java/com/sauce/context/TestContext.java:16-17 | the API product is the one given; the driver is unchanged |
| `Scenario.CallbackSlot.SetScreenshotCallback` | src/main/java/com/sauce/context/TestContext.java:19-21 | the registered callback is replaced by the new one |
| `Scenario.CallbackSlot.TakeScreenshotCallback` | src/main/java/com/sauce/context/TestContext.java:23-27 | with no callback nothing may change; with one, it runs exactly once with the given driver |
| `Scenario.ReplacedCallbackNotInvoked` | src/main/java/com/sauce/context/TestContext.java:19-27 | after a replacement only the latest callback runs; the replaced one's counter stays as it was |
| `Scenario.Hooks.constructor` | src/test/java/com/sauce/hooks/Hooks.java:15-20 | the hooks hold the injected context and start with a zero step counter |
| `Scenario.Hooks.SetUp` | src/test/java/com/sauce/hooks/Hooks.java:22-41 | counter reset to 0, this hooks' callback registered, and the context holds the thread's driver; a failed launch is raised and leaves the context driver alone |
| `Scenario.Hooks.OnScreenshot` | src/test/java/com/sauce/hooks/Hooks.java:26-36 | the counter goes up by one (Java int) before any capture; one screenshot call; an attachment "Action n (highlighted)" only when the capture succeeds |
| `Scenario.Hooks.TearDown` | src/test/java/com/sauce/hooks/Hooks.java:43-57 | with no context driver nothing happens; otherwise one final screenshot only when failed, then quitDriver in every case, leaving the slot empty |
| `Scenario.StepAttachmentsNumbered` | src/test/java/com/sauce/hooks/Hooks.java:27-32 | the i-th step attachment is named after the i-th successful invocation, and these numbers lie in 1..n and increase |
| `Scenario.StepAttachmentNamesDistinct` | src/test/java/com/sauce/hooks/Hooks.java:30-32 | no two step attachments of a scenario share a name, counting invocations without wrap-around |
| `Scenario.AllCapturedNumberedFromOne` | src/test/java/com/sauce/hooks/Hooks.java:27-32 | when every capture succeeds, the attachments are "Action 1 (highlighted)", "Action 2 (highlighted)", … in order |
| `Scenario.RunScenario` | src/test/java/com/sauce/hooks/Hooks.java:22-57 | on success the session is launched once, quit exactly once at the end and the slot left empty; the final screenshot only for a failed scenario; a failed launch leaves nothing to release and attaches nothing |

## Left out

- File and resource input: `Properties.load` of application.properties and reading `.env` are not modelled. The loaded map and the `.env` lines are constructor inputs. An IOException part-way through `.env` is the same as a shorter line sequence.
- Logging through slf4j and `System.out` has no observable effect on the modelled state.
- `baseUrl`, `apiBase` and `getProperty(key, default)` are plain lookups that the core does not use, so they are not modelled.
- `getIntProperty(key, null)`, a null default, is not modelled: every caller in the core passes a literal.
- JavaText.ParseInt: accepts ASCII digits only. `Integer.parseInt` also accepts other Unicode decimal digits through `Character.digit`.
- JavaText.ToLower: maps the ASCII letters only. `String.toLowerCase` is locale-dependent and covers all of Unicode.
- JavaText.ParseBoolean: compares case on the ASCII letters only, like `ToLower`.
- The `Integer.parseInt` of the implicitWait and pageLoadTimeout system properties in DriverManager's initialiser is not modelled, nor are their values. Chrome and Firefox option lists, preferences, maximize and the timeout calls are not modelled either. A failure while building the options or preferences, in the driver setup or in the driver constructor happens before a session exists and is the `LaunchFailed` outcome. A failure in maximize or a timeout setting happens after the session started and is the `ConfigureFailed` outcome.
- `getBrowserType` and `isHeadless` return the `browser` and `headless` constants of `DriverManager`.
- Thread locality and concurrency are not modelled: one thread's slot and one callback slot. The cross-thread race on the static callback is outside a sequential model.
- Page objects, `UiEffects.highlight`, `SlowMotion.intentionalWait`, `ApiClient` and the Cucumber step definitions are not modelled. They are Selenium, HTTP, sleep and floating-point glue. Each interaction that fires the callback appears in `RunScenario` only as one capture outcome. `Product` is a plain record.
- A failing `Allure.addAttachment` and a failing `getScreenshotAs` are one outcome, `CaptureFailed`. Both are caught by the same handler.
- Scenario.StepAttachmentNamesDistinct: numbers invocations with unbounded integers. The source's `int` step counter wraps after 2^32 callback invocations and would then reuse names. `RunScenario`, which uses the Java-int counter, requires at most MaxInt steps, so the two agree there.
