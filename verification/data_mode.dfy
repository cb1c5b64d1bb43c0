/** The data-mode switch (src/lib/data-mode.tsx) and its toggle control
    (src/components/data-mode-toggle.tsx). The provider holds the selected
    backend, whether the database is usable, and an error message; the
    availability is derived once, from two configuration values, and a
    request for the database while it is unusable is refused. */
module DataMode {
  import opened Seqs

  datatype DataMode = Database | Mock

  datatype ModeState = ModeState(mode: DataMode, available: bool, error: Option<string>)

  const NotConfigured := "Database not configured. Please set up Supabase environment variables."
  const CannotSwitch := "Cannot switch to database mode. Supabase is not properly configured."

  /** The provider's state before its effect runs. */
  const Initial := ModeState(Mock, false, None)

  lemma InitialIsMock()
    ensures Initial.mode == Mock && !Initial.available && Initial.error.None?
  {
  }

  /** A configuration value counts as present when it is set and non-empty
      (JavaScript truthiness of an environment variable). */
  predicate Present(v: Option<string>)
  {
    v.Some? && v.value != ""
  }

  /** The mount effect: the database is available iff both the URL and the
      anonymous key are present; the error is cleared when it is and set to
      the not-configured message when it is not. The mode is untouched. */
  function CheckConfig(st: ModeState, url: Option<string>, key: Option<string>): (r: ModeState)
    ensures r.available <==> Present(url) && Present(key)
    ensures r.available ==> r.error.None?
    ensures !r.available ==> r.error == Some(NotConfigured)
    ensures r.mode == st.mode
  {
    if Present(url) && Present(key) then st.(available := true, error := None)
    else st.(available := false, error := Some(NotConfigured))
  }

  /** `handleSetDataMode(mode)`: the database is refused while unavailable
      (mode unchanged, error set); any other request is taken and clears the
      error. */
  function SetDataMode(st: ModeState, requested: DataMode): (r: ModeState)
    ensures r.available == st.available
    ensures requested == Database && !st.available ==> r.mode == st.mode && r.error == Some(CannotSwitch)
    ensures !(requested == Database && !st.available) ==> r.mode == requested && r.error.None?
  {
    if requested == Database && !st.available then st.(error := Some(CannotSwitch))
    else st.(mode := requested, error := None)
  }

  /** Switching to mock always succeeds. */
  lemma SwitchToMockSucceeds(st: ModeState)
    ensures SetDataMode(st, Mock).mode == Mock && SetDataMode(st, Mock).error.None?
  {
  }

  /** The safety property of the switch: the database is selected only when
      it is available. */
  ghost predicate Safe(st: ModeState)
  {
    st.mode == Database ==> st.available
  }

  /** Replays the requests made after the mount effect. */
  function Replay(st: ModeState, requests: seq<DataMode>): ModeState
    decreases |requests|
  {
    if |requests| == 0 then st else Replay(SetDataMode(st, requests[0]), requests[1..])
  }

  lemma {:induction false} ReplayKeepsSafe(st: ModeState, requests: seq<DataMode>)
    requires Safe(st)
    ensures Safe(Replay(st, requests))
    ensures Replay(st, requests).available == st.available
    decreases |requests|
  {
    if |requests| > 0 {
      ReplayKeepsSafe(SetDataMode(st, requests[0]), requests[1..]);
    }
  }

  /** A session: the provider starts in `Initial`, its effect derives the
      availability once, then any sequence of requests follows. The database
      is never selected unless both configuration values are present. */
  function Session(url: Option<string>, key: Option<string>, requests: seq<DataMode>): ModeState
  {
    Replay(CheckConfig(Initial, url, key), requests)
  }

  lemma SessionIsSafe(url: Option<string>, key: Option<string>, requests: seq<DataMode>)
    ensures var st := Session(url, key, requests);
      Safe(st) && (st.available <==> Present(url) && Present(key))
    ensures !(Present(url) && Present(key)) ==> Session(url, key, requests).mode == Mock
  {
    ReplayKeepsSafe(CheckConfig(Initial, url, key), requests);
  }

  // ---------------------------------------------------------------------
  // The toggle control

  /** What a click on the toggle produced: the provider state, and the success
      message shown, if any. */
  datatype ToggleResult = ToggleResult(state: ModeState, toast: Option<string>)

  function ModeLabel(m: DataMode): string
  {
    match m
    case Database => "Database"
    case Mock => "Mock"
  }

  /** `handleModeChange(mode)`: choosing the selected mode does nothing;
      otherwise the request is forwarded and a success message names the
      requested mode. */
  function HandleModeChange(st: ModeState, requested: DataMode): (r: ToggleResult)
    ensures requested == st.mode ==> r.state == st && r.toast.None?
    ensures requested != st.mode ==> r.state == SetDataMode(st, requested)
    ensures requested != st.mode ==> r.toast == Some("Switched to " + ModeLabel(requested) + " data")
  {
    if requested == st.mode then ToggleResult(st, None)
    else ToggleResult(SetDataMode(st, requested), Some("Switched to " + ModeLabel(requested) + " data"))
  }

  /** One button as rendered: whether it can be clicked and whether it is
      drawn as the selected one (`variant="default"`). */
  datatype ButtonView = ButtonView(enabled: bool, highlighted: bool)

  datatype ToggleView = ToggleView(db: ButtonView, mock: ButtonView)

  /** The rendered control. Unavailable: both buttons disabled and Mock drawn
      selected. Available: both enabled, each highlighted iff it is the
      current mode. */
  function View(st: ModeState): (v: ToggleView)
    ensures !st.available ==> !v.db.enabled && !v.mock.enabled && v.mock.highlighted && !v.db.highlighted
    ensures st.available ==> v.db.enabled && v.mock.enabled
    ensures st.available ==> (v.db.highlighted <==> st.mode == Database)
    ensures st.available ==> (v.mock.highlighted <==> st.mode == Mock)
  {
    if !st.available then ToggleView(ButtonView(false, false), ButtonView(false, true))
    else ToggleView(ButtonView(true, st.mode == Database), ButtonView(true, st.mode == Mock))
  }

  /** A click on one of the buttons: a disabled button does nothing. */
  function Click(st: ModeState, button: DataMode): (r: ToggleResult)
  {
    var v := View(st);
    var enabled := if button == Database then v.db.enabled else v.mock.enabled;
    if enabled then HandleModeChange(st, button) else ToggleResult(st, None)
  }

  /** Through the toggle, a success message is only ever shown for a switch
      that happened, and while the database is unavailable no click changes
      anything. */
  lemma ClickToastIsTruthful(st: ModeState, button: DataMode)
    ensures var r := Click(st, button);
      (r.toast.Some? ==> r.state.mode == button && r.state.mode != st.mode && r.state.error.None?)
      && (!st.available ==> r == ToggleResult(st, None))
  {
  }

  /** Clicking the other mode and then the original one returns to the
      original mode, when the database is available. */
  lemma ClickBackAndForth(st: ModeState, other: DataMode)
    requires st.available && other != st.mode
    ensures Click(Click(st, other).state, st.mode).state.mode == st.mode
  {
  }
}
