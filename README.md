# Battery durability test: action runner model

BatteryDurabilityTest drives a desktop through a long, human-like sequence of
actions: opening apps, pressing keys, moving the cursor, clicking buttons found on
screen. It does this to measure battery life. The runner lives in `common.py`. A
`Test` is a named list of `Action`s. `Test.carry` executes them in order. An
action that raises is logged and skipped, and the run goes on. This project
models that runner and the parts of the actions that hold logic, and proves
properties of the model in Dafny:

- `Tests`: `Test.carry` as a loop that produces a trace of events. An event is
  an action being executed, or a warning being logged. The outcome of each
  `execute` call comes from an oracle sequence of `Ok | Fail(message)`. This
  module also models the `while True` driver of `__main__.py`, which stops at the
  first falsy value `carry` returns.
- `ScreenContent`: `ClickScreenContent`, a class. The constructor sets the
  default for `sample_count`. The class builds the list of sample image paths.
  Its `successful` flag is sticky and decides whether `execute` raises "Target
  button is missing.". Screen matching is an oracle: the set of sample paths the
  screen currently shows.
- `CursorMove`: the point `MoveCursorRelateToWindow.execute` moves the cursor
  to. It is picked from the active window's edges by a two-letter origin code.
- `Actions`: the kinds of action in `common.py`, the name each one gets, and
  `__str__`. OpenApp's `__str__` shows the app name. `LaunchNeteaseMusic` picks
  the app name by platform.
- `Decimal`: how Python's f-string `{i}` writes the number in
  `./samples/{name}.{i}.png`, with a parser that reads it back. This is what
  proves that no sample path is tried twice.
- `Outcomes`: the `Option`, `Result` and `Outcome` wrappers.

Facts about the code that shape the model:

- `carry` returns `None`. No exception it catches stops the run early: every
  action is executed whatever the earlier ones did. `Test` has no
  `current_action` attribute.
- `TimerLoop` and `WaitUntilCPUFree` are used by test.py but defined in none of
  common.py, test.py or __main__.py, so they are not modelled.
- `__main__.py` reads `test_ref.current.current_action`, which `Test` never
  defines. This is in the battery recorder thread, which is not modelled, so it
  is only noted here.

Horizontal origin codes other than `r` and `c` add the offset to the window's
*right* edge (`common.py:156`). The model keeps this as written, and
`CursorMove.TargetFallbackRightOfWindow` states the effect.

## Model

| member | source | states |
|---|---|---|
| `Tests.Carry` | common.py:37-42 | Running a test gives exactly the event trace `CarryEvents` for the given outcomes. Every action is executed even after earlier failures, and the return value is always Python's `None`. |
| `Tests.CarryLength` | common.py:37-42 | The trace has one event per action plus one per failed action. |
| `Tests.CarryLayout` | common.py:38-42 | Action `i` is executed at position `i` plus the number of earlier failures, whatever the earlier outcomes were. If it failed, the next event is a warning whose text names the action (`str(action)`), the test's name and the exception message. |
| `Tests.CarryExecutesAllInOrder` | common.py:38-40 | The executed actions of the trace are exactly the test's action list: each one once, in list order. |
| `Tests.CarryWarnsOncePerFailure` | common.py:39-42 | The number of warnings logged equals the number of actions that raised. |
| `Tests.StepCounts` | common.py:39-42 | One pass of the loop body executes its action once, and logs a warning exactly when the action raised. |
| `Tests.DriverPasses` | __main__.py:41-44 | The driver loop stops at the first call whose return value is falsy. Every earlier return value was truthy. |
| `Tests.DriverStopsAfterOnePass` | __main__.py:41-44 | `carry` returns `None`, so the driver loop runs exactly one pass, whatever comes later. |
| `ScreenContent.EffectiveSampleCount` | common.py:105-108 | A truthy `sample_count` is stored as given, negative values included. `None` or `0` becomes 1. The stored count is never 0. |
| `ScreenContent.SamplePaths` | common.py:118-123 | Count 1 gives the single path `./samples/{name}.png`. Any other count gives `./samples/{name}.{i}.png` for i = 1..count in order, and nothing when count < 1. |
| `ScreenContent.IndexedPathInjective` | common.py:123 | Two numbered sample paths of one name are equal only when their numbers are equal. |
| `ScreenContent.SamplePathsDistinct` | common.py:118-123 | One execution never tries the same sample path twice. |
| `ScreenContent.SamplesTried` | common.py:105-123 | How many paths one execution tries, from the constructor argument: 1 for `None`, 0 or 1; `n` for `n > 1`; none for a negative `n`. |
| `ScreenContent.ClickScreenContent.constructor` | common.py:101-108 | Keeps the sample name, stores the effective sample count, and starts with `successful` false. |
| `ScreenContent.ClickScreenContent.ClickSample` | common.py:111-116 | Clicks exactly when the sample is on screen. In that case it sets `successful`, and it never clears it. |
| `ScreenContent.ClickScreenContent.Execute` | common.py:110-131 | Clicks exactly the sample paths found on screen. `successful` becomes true if it was already true or any sample was found. The call raises "Target button is missing." exactly when `successful` is still false. Once one execution has succeeded, no later one raises. |
| `CursorMove.Target` | common.py:141-156 | An origin shorter than two letters raises `IndexError`. Otherwise the target is the anchor picked by each letter plus the offset in that letter's direction: `b` gives bottom minus y, `c` gives centery plus y, anything else top plus y; `r` gives right minus x, `c` gives centerx plus x, anything else right plus x. |
| `CursorMove.TargetOffsetsRoundTrip` | common.py:144-156 | For a valid origin, the offsets can be recovered from the target. |
| `CursorMove.OffsetsTargetRoundTrip` | common.py:144-156 | Each point is the target of exactly the offsets computed from it, so targets and offsets are in one-to-one correspondence. |
| `CursorMove.TargetReadsTwoLetters` | common.py:144-156 | Only the first two letters of the origin affect the target. |
| `CursorMove.TargetWithinHeight` | common.py:144-149 | Measured from the top or bottom edge, a vertical offset between 0 and the window height keeps the target between those edges. |
| `CursorMove.TargetFallbackRightOfWindow` | common.py:151-156 | As written, for any horizontal code other than `r` or `c`, a positive offset puts the target right of the window's right edge. |
| `Actions.Str` | common.py:88-89 | `str()` of an action is its name (the inherited `Action.__str__`, common.py:24-25). For `OpenApp` it is `open_app(` + app name + `)`, and the app name can be read back from between the parentheses. |
| `Actions.LaunchNeteaseMusic` | common.py:92-97 | An `OpenApp` action whose label is `open_app(wangyiyun)` on Windows and `open_app(neteasemusic)` elsewhere. |
| `Decimal.NatToString` | common.py:123 | `{i}` renders a non-negative number as a non-empty string of decimal digits. It has no leading zero, and it is one digit exactly for numbers below 10. |
| `Decimal.ParseNatToString` | common.py:123 | Parsing the rendering of a number gives the number back. |
| `Decimal.NatToStringInjective` | common.py:123 | Different numbers render as different strings. |

## Left out

- Every `pyautogui` call (`press`, `keyDown`/`keyUp`, `write`, `click`, `locateOnScreen`, `center`, `getActiveWindow`, `moveTo`) is OS-level input or screen capture. Whether a sample is on screen is a parameter, and so is the active window. A click is recorded as the path it was found by.
- `Pause.execute`, `HitSearchKey.execute`, `HitSpaceKey.execute`, `OpenApp.execute` and `Click.execute` consist only of foreign input calls or `time.sleep`. In `carry`, their outcome comes from the oracle.
- Tests.Carry: only exceptions derived from `Exception` are caught (`common.py:41`). A `KeyboardInterrupt` or `SystemExit` would leave `carry` early. The model has no such outcome.
- Thread fan-out in `ClickScreenContent.execute` (`common.py:121-128`): the threads run one after another. The end state is the same, because every thread only ever sets `successful` to true. The order of clicks among threads is not fixed by the source, so clicks form a set.
- ScreenContent.ClickScreenContent.Execute: it assumes `locateOnScreen` returns `None` when the image is absent, and that `center` and `click` never raise after a successful locate (`common.py:112-115`). Three cases are not modelled: library versions whose `locateOnScreen` raises instead, a missing sample file, and `center` or `click` raising (for example pyautogui's fail-safe exception when the cursor sits in a screen corner). In each case `self.successful = True` (`common.py:116`) is not reached for that sample. In the threaded branch only that thread dies. In the single-sample branch the exception leaves `execute`.
- ScreenContent.ClickScreenContent.ClickSample: for the same reason, `ClickSample` promises a click and `successful` for every sample on screen. The source does not when `center` or `click` raises.
- CursorMove.Target: offsets and window edges are exact rationals. Floating-point rounding is not modelled, and a missing active window (`getActiveWindow` returning `None`) is not modelled either.
- The `IS_WINDOWS` probe (`common.py:10`) is a boolean parameter. The `logging` setup (`common.py:8`) is left out: logged warnings are events of the trace, without timestamps.
- The fixed action lists of `TestInitialization` and `StandardTest` (`common.py:169-185`) are plain data with no behaviour.
- `__main__.py` apart from its driver loop is not part of this model: the battery recorder (file I/O, battery readings, sleeping, its own thread) and the `TestRef` holder. `test.py` is configuration. The classes it uses (`TimerLoop`, `WaitUntilCPUFree`, `QQLogin`, `ExcelPrepare`, `LaunchExcel`, `ExcelCalc`, `HitEnterKey`) are used by test.py but defined in none of common.py, test.py or __main__.py.
