/** The actions of common.py: the kinds a test is built from, the `name` each
    kind passes to `Action.__init__`, and the label `__str__` gives it. */
module Actions {
  import ScreenContent

  datatype Action =
    | Custom(name: string)   // `Action(name)`, or a subclass that keeps `Action.__str__`
    | Pause(amount: real)
    | HitSearchKey
    | HitSpaceKey
    | OpenApp(appName: string)
    | ClickScreenContent(target: ScreenContent.ClickScreenContent)
    | MoveCursorRelateToWindow(x: real, y: real, origin: string)
    | Click

  /** The `name` field each kind of action is constructed with. */
  function Name(a: Action): string {
    match a
    case Custom(n) => n
    case Pause(_) => "pause"
    case HitSearchKey => "hit_search_key"
    case HitSpaceKey => "play"
    case OpenApp(_) => "open_app"
    case ClickScreenContent(_) => "click_screen_content"
    case MoveCursorRelateToWindow(_, _, _) => "move_cursor_relatively"
    case Click => "click"
  }

  const OpenAppPrefix := "open_app("

  /** `str(a)`: the action's name, except that `OpenApp` shows the application it
      opens, which can be read back from between the parentheses. */
  function Str(a: Action): (s: string)
    ensures !a.OpenApp? ==> s == Name(a)
    ensures a.OpenApp? ==>
              |s| == |OpenAppPrefix| + |a.appName| + 1 &&
              s[..|OpenAppPrefix|] == OpenAppPrefix &&
              s[|OpenAppPrefix|..|s| - 1] == a.appName &&
              s[|s| - 1] == ')'
  {
    match a
    case OpenApp(app) => OpenAppPrefix + app + ")"
    case _ => Name(a)
  }

  /** `LaunchNeteaseMusic()`: open the music client under its platform's search
      name. */
  function LaunchNeteaseMusic(isWindows: bool): (a: Action)
    ensures a.OpenApp? && Name(a) == "open_app"
    ensures Str(a) == if isWindows then "open_app(wangyiyun)" else "open_app(neteasemusic)"
  {
    var app := if isWindows then "wangyiyun" else "neteasemusic";
    assert OpenAppPrefix + app + ")" == if isWindows then "open_app(wangyiyun)" else "open_app(neteasemusic)";
    OpenApp(app)
  }
}
