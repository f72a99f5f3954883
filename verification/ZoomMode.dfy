/** The zoom machine of AVOutput: the user's choice, HDMI start and stop, resolution updates and restarts. */
module ZoomMode {
  import opened Wrappers

  /** The display modes the plugin names. */
  datatype Mode = Stretch16x9 | Pillarbox4x3 | Full | Normal | Direct | Auto | Zoom

  // dsVideoResolution_t
  const RES_1920x1080 := 3
  const RES_3840x2160 := 4
  const RES_MAX := 6

  /** The plugin's fields, the ratio the TV applies, and the persisted label. */
  datatype State = State(user: Mode, hdmi: bool, resolution: int, applied: Mode, stored: Option<string>)

  /** Each event carries the outcome of the calls it makes. */
  datatype Event =
    | HdmiStatus(presented: bool, halOk: bool)
    | VideoMode(resolution: int, halOk: bool)
    | Choose(value: string, permitted: bool, halOk: bool, savedOk: bool, storedOk: bool)
    | Restart(current: Option<int>, halOk: bool)

  predicate Below4K(resolution: int) {
    resolution < RES_3840x2160 || resolution == RES_MAX
  }

  // ------------------------------------------------------- labels

  /** setZoomMode's reading of a label. */
  function ChosenMode(value: string): Option<Mode> {
    if value == "TV 16X9 STRETCH" then Some(Stretch16x9)
    else if value == "TV 4X3 PILLARBOX" then Some(Pillarbox4x3)
    else if value == "TV NORMAL" then Some(Normal)
    else if value == "TV DIRECT" then Some(Direct)
    else if value == "TV AUTO" then Some(Auto)
    else if value == "TV ZOOM" then Some(Zoom)
    else None
  }

  /** setDefaultAspectRatio's reading of a persisted label, which also knows the labels of older releases. */
  function StoredMode(value: string): Mode {
    if value == "16:9" then Stretch16x9
    else if value == "4:3" then Pillarbox4x3
    else if value == "Full" then Full
    else if value == "Normal" then Normal
    else if value == "TV AUTO" then Auto
    else if value == "TV DIRECT" then Direct
    else if value == "TV NORMAL" then Normal
    else if value == "TV ZOOM" then Zoom
    else if value == "TV 16X9 STRETCH" then Stretch16x9
    else if value == "TV 4X3 PILLARBOX" then Pillarbox4x3
    else Auto
  }

  /** getZoomMode's label for a mode. */
  function Label(mode: Mode): string {
    match mode
    case Stretch16x9 => "TV 16X9 STRETCH"
    case Pillarbox4x3 => "TV 4X3 PILLARBOX"
    case Normal => "TV NORMAL"
    case Auto => "TV AUTO"
    case Direct => "TV DIRECT"
    case Zoom => "TV ZOOM"
    case Full => "TV AUTO"
  }

  /** A label that can be chosen is read the same when it is restored, and reported as it was given. */
  lemma LabelsRoundTrip(value: string)
    requires ChosenMode(value).Some?
    ensures StoredMode(value) == ChosenMode(value).value
    ensures Label(StoredMode(value)) == value
  {
  }

  /** Which labels restore which mode: each mode's own label and that of older releases, and AUTO for all others. */
  lemma RestoredModes(value: string)
    ensures StoredMode(value) == Stretch16x9 <==> value == "16:9" || value == "TV 16X9 STRETCH"
    ensures StoredMode(value) == Pillarbox4x3 <==> value == "4:3" || value == "TV 4X3 PILLARBOX"
    ensures StoredMode(value) == Normal <==> value == "Normal" || value == "TV NORMAL"
    ensures StoredMode(value) == Full <==> value == "Full"
    ensures StoredMode(value) == Direct <==> value == "TV DIRECT"
    ensures StoredMode(value) == Zoom <==> value == "TV ZOOM"
  {
  }

  /** Restoring keeps every mode that a label stands for; only FULL is reported under another name. */
  lemma ModesRoundTrip(mode: Mode)
    ensures StoredMode(Label(mode)) == mode <==> mode != Full
    ensures ChosenMode(Label(mode)) == Some(mode) <==> mode != Full
  {
  }

  // ------------------------------------------------------- one step

  function Applying(s: State, mode: Mode, ok: bool): State {
    if ok then s.(applied := mode) else s
  }

  /** What setAspectRatioZoomSettings asks the TV for after the user chose mode. */
  function Asked(s: State): Mode {
    if s.hdmi && !Below4K(s.resolution) then Auto else s.user
  }

  predicate Accepted(e: Event) {
    e.Choose? && e.permitted && ChosenMode(e.value).Some?
  }

  function Next(s: State, e: Event): State {
    match e
    case HdmiStatus(presented, ok) =>
      if presented then s.(hdmi := true) else Applying(s.(hdmi := false), s.user, ok)
    case VideoMode(resolution, ok) =>
      var s' := s.(resolution := resolution);
      if s.hdmi then Applying(s', Asked(s'), ok) else s'
    case Choose(value, permitted, halOk, savedOk, storedOk) =>
      if !Accepted(e) then s
      else
        var s' := s.(user := ChosenMode(value).value);
        var s'' := Applying(s', Asked(s'), halOk);
        if halOk && savedOk && storedOk then s''.(stored := Some(value)) else s''
    case Restart(current, halOk) =>
      var s' := State(Normal, false, if current.Some? then current.value else RES_1920x1080, s.applied, s.stored);
      if s.stored.None? then s'
      else var restored := StoredMode(s.stored.value); Applying(s'.(user := restored), restored, halOk)
  }

  /** The label getZoomMode reports when the TV answers. */
  function Reported(s: State): string {
    Label(if s.hdmi && !Below4K(s.resolution) then s.user else s.applied)
  }

  /** A restart whose request gets through makes getZoomMode report the persisted label exactly when it is one that can
      be chosen; labels of older releases and unknown ones are reported under a current name. */
  lemma RestartReports(s: State, current: Option<int>, value: string)
    requires s.stored == Some(value)
    ensures Reported(Next(s, Restart(current, true))) == value <==> ChosenMode(value).Some?
  {
    RestoredModes(value);
    if ChosenMode(value).Some? {
      LabelsRoundTrip(value);
    }
  }

  // ------------------------------------------------------- in place

  /** What outlives the plugin: the TV's ratio and the local store. */
  class Tv {
    var applied: Mode
    var stored: Option<string>

    method SetAspectRatio(mode: Mode, halOk: bool) returns (ok: bool)
      modifies this`applied
      ensures ok == halOk && applied == if halOk then mode else old(applied)
    {
      ok := halOk;
      if ok { applied := mode; }
    }
  }

  class AVOutputTV {
    const tv: Tv
    var videoZoomMode: Mode
    var hdmiStarted: bool
    var currentResolution: int

    ghost function View(): State
      reads this, tv
    {
      State(videoZoomMode, hdmiStarted, currentResolution, tv.applied, tv.stored)
    }

    /** The constructor and Initialize, on a TV that may hold a persisted label. */
    constructor (tv: Tv, current: Option<int>, halOk: bool)
      modifies tv`applied
      ensures this.tv == tv
      ensures forall user, hdmi, resolution ::
        View() == Next(State(user, hdmi, resolution, old(tv.applied), old(tv.stored)), Restart(current, halOk))
    {
      this.tv := tv;
      videoZoomMode := Normal;
      hdmiStarted := false;
      currentResolution := RES_1920x1080;
      new;
      if current.Some? {
        currentResolution := current.value;
      }
      SetDefaultAspectRatio(halOk);
    }

    method HdmiStatusEventHandler(presented: bool, halOk: bool)
      modifies this`hdmiStarted, tv`applied
      ensures View() == Next(old(View()), HdmiStatus(presented, halOk))
    {
      if !presented {
        hdmiStarted := false;
        var ok := tv.SetAspectRatio(videoZoomMode, halOk);
      } else {
        hdmiStarted := true;
      }
    }

    method VideoModeEventHandler(resolution: int, halOk: bool)
      modifies this`currentResolution, tv`applied
      ensures View() == Next(old(View()), VideoMode(resolution, halOk))
    {
      currentResolution := resolution;
      if hdmiStarted {
        if currentResolution < RES_3840x2160 || currentResolution == RES_MAX {
          var ok := tv.SetAspectRatio(videoZoomMode, halOk);
        } else {
          var ok := tv.SetAspectRatio(Auto, halOk);
        }
      }
    }

    method SetZoomMode(value: string, permitted: bool, halOk: bool, savedOk: bool, storedOk: bool) returns (ok: bool)
      modifies this`videoZoomMode, tv
      ensures View() == Next(old(View()), Choose(value, permitted, halOk, savedOk, storedOk))
      ensures ok <==> permitted && ChosenMode(value).Some? && halOk && savedOk && storedOk
    {
      if !permitted { return false; }
      var mode := ChosenMode(value);
      if mode.None? { return false; }
      videoZoomMode := mode.value;
      ok := SetAspectRatioZoomSettings(mode.value, halOk);
      if !ok { return false; }
      if !savedOk { return false; }
      if !storedOk { return false; }
      tv.stored := Some(value);
    }

    method SetAspectRatioZoomSettings(mode: Mode, halOk: bool) returns (ok: bool)
      requires mode == videoZoomMode
      modifies tv`applied
      ensures ok == halOk && View() == Applying(old(View()), Asked(old(View())), halOk)
    {
      if hdmiStarted {
        if currentResolution < RES_3840x2160 || currentResolution == RES_MAX {
          ok := tv.SetAspectRatio(mode, halOk);
        } else {
          ok := tv.SetAspectRatio(Auto, halOk);
        }
      } else {
        ok := tv.SetAspectRatio(videoZoomMode, halOk);
      }
    }

    method SetDefaultAspectRatio(halOk: bool)
      modifies this`videoZoomMode, tv`applied
      ensures tv.stored == old(tv.stored)
      ensures var user := if tv.stored.Some? then StoredMode(tv.stored.value) else old(videoZoomMode);
        var s := old(View()).(user := user);
        View() == if tv.stored.Some? then Applying(s, Asked(s), halOk) else s
    {
      if tv.stored.Some? {
        videoZoomMode := StoredMode(tv.stored.value);
        var ok := SetAspectRatioZoomSettings(videoZoomMode, halOk);
      }
    }

    method GetZoomMode(halOk: bool) returns (zoomMode: Option<string>)
      ensures zoomMode == Some(Reported(View())) || zoomMode == None
      ensures zoomMode == None <==> !halOk && (hdmiStarted ==> Below4K(currentResolution))
    {
      if hdmiStarted {
        if !(currentResolution < RES_3840x2160 || currentResolution == RES_MAX) {
          return Some(Label(videoZoomMode));
        }
      }
      if !halOk { return None; }
      return Some(Label(tv.applied));
    }
  }

  // ------------------------------------------------------- every run

  /** From 3840x2160 on, except the enumeration's end marker, which stands for an unknown resolution. */
  predicate FourK(resolution: int) {
    resolution >= RES_3840x2160 && resolution != RES_MAX
  }

  /** The state after the first n events. */
  function StateAt(s0: State, events: seq<Event>, n: nat): State
    requires n <= |events|
  {
    if n == 0 then s0 else Next(StateAt(s0, events, n - 1), events[n - 1])
  }

  /** Is HDMI presented after the first n events, going by the last status event since the last restart? */
  predicate Presented(s0: State, events: seq<Event>, n: nat)
    requires n <= |events|
  {
    if n == 0 then s0.hdmi
    else
      match events[n - 1]
      case HdmiStatus(presented, _) => presented
      case Restart(_, _) => false
      case VideoMode(_, _) => Presented(s0, events, n - 1)
      case Choose(_, _, _, _, _) => Presented(s0, events, n - 1)
  }

  /** The resolution after the first n events: of the last update, or what the last restart read from the device. */
  function LastResolution(s0: State, events: seq<Event>, n: nat): int
    requires n <= |events|
  {
    if n == 0 then s0.resolution
    else
      match events[n - 1]
      case VideoMode(resolution, _) => resolution
      case Restart(current, _) => if current.Some? then current.value else RES_1920x1080
      case HdmiStatus(_, _) => LastResolution(s0, events, n - 1)
      case Choose(_, _, _, _, _) => LastResolution(s0, events, n - 1)
  }

  lemma {:induction false} StateFollowsEvents(s0: State, events: seq<Event>, n: nat)
    requires n <= |events|
    ensures StateAt(s0, events, n).hdmi == Presented(s0, events, n)
    ensures StateAt(s0, events, n).resolution == LastResolution(s0, events, n)
  {
    if n > 0 {
      StateFollowsEvents(s0, events, n - 1);
    }
  }

  /** The event asks the TV for a ratio. */
  predicate Asks(s: State, e: Event) {
    match e
    case HdmiStatus(presented, _) => !presented
    case VideoMode(_, _) => s.hdmi
    case Choose(_, _, _, _, _) => Accepted(e)
    case Restart(_, _) => s.stored.Some?
  }

  /** The last of the first n events that asked the TV for a ratio got it, and no restart without a label came since. */
  predicate Confirmed(s0: State, events: seq<Event>, n: nat)
    requires n <= |events|
  {
    if n == 0 then false
    else
      var s, e := StateAt(s0, events, n - 1), events[n - 1];
      if Asks(s, e) then e.halOk else !e.Restart? && Confirmed(s0, events, n - 1)
  }

  /** A permitted call with one of the six labels. */
  predicate IsChoice(e: Event) {
    e.Choose? && e.permitted && ChosenMode(e.value).Some?
  }

  /** Which events get through, without the state: an HDMI stop, an update while HDMI is presented, a choice, and a
      restart that finds a label, if the TV accepts; the other events leave things as they are, but a restart that
      finds no label does not. */
  lemma ConfirmedMeans(s0: State, events: seq<Event>, n: nat)
    requires 0 < n <= |events|
    ensures var e, before := events[n - 1], Confirmed(s0, events, n - 1);
      Confirmed(s0, events, n) ==
      match e
      case HdmiStatus(presented, halOk) => if presented then before else halOk
      case VideoMode(_, halOk) => if Presented(s0, events, n - 1) then halOk else before
      case Choose(_, _, halOk, _, _) => if IsChoice(e) then halOk else before
      case Restart(_, halOk) => StateAt(s0, events, n - 1).stored.Some? && halOk
  {
    StateFollowsEvents(s0, events, n - 1);
  }

  /** Since HDMI was last started, a resolution update or a choice has been handled. */
  predicate HandledSinceStart(s0: State, events: seq<Event>, n: nat)
    requires n <= |events|
  {
    if n == 0 then false
    else
      var s, e := StateAt(s0, events, n - 1), events[n - 1];
      match e
      case HdmiStatus(presented, _) => presented && s.hdmi && HandledSinceStart(s0, events, n - 1)
      case Restart(_, _) => false
      case VideoMode(_, _) => s.hdmi
      case Choose(_, _, _, _, _) => s.hdmi && (Accepted(e) || HandledSinceStart(s0, events, n - 1))
  }

  lemma HandledWhileActive(s0: State, events: seq<Event>, n: nat)
    requires n <= |events|
    ensures HandledSinceStart(s0, events, n) ==> StateAt(s0, events, n).hdmi
  {
  }

  /** Over every run, failures included: once the last request to the TV got through, the TV applies the user's mode,
      except that it applies AUTO exactly while HDMI is active at 4K or above and something was handled since. */
  lemma {:induction false} AppliedExactly(s0: State, events: seq<Event>, n: nat)
    requires n <= |events| && Confirmed(s0, events, n)
    ensures var s, high := StateAt(s0, events, n), FourK(LastResolution(s0, events, n));
      s.applied ==
        if Presented(s0, events, n) && high && HandledSinceStart(s0, events, n) then Auto else s.user
  {
    var e := events[n - 1];
    StateFollowsEvents(s0, events, n);
    if !Asks(StateAt(s0, events, n - 1), e) {
      StateFollowsEvents(s0, events, n - 1);
      AppliedExactly(s0, events, n - 1);
      HandledWhileActive(s0, events, n - 1);
    }
  }

  /** The ratio applied is the user's mode unless HDMI is active at 4K or above, and what getZoomMode reports is always
      the user's mode. */
  lemma ReportsUserMode(s0: State, events: seq<Event>, n: nat)
    requires n <= |events| && Confirmed(s0, events, n)
    ensures var s := StateAt(s0, events, n);
      s.applied == s.user || (Presented(s0, events, n) && FourK(LastResolution(s0, events, n)))
    ensures Reported(StateAt(s0, events, n)) == Label(StateAt(s0, events, n).user)
  {
    AppliedExactly(s0, events, n);
    StateFollowsEvents(s0, events, n);
  }

  /** Every call of the event succeeds. */
  predicate Succeeds(e: Event) {
    e.halOk && (e.Choose? ==> e.savedOk && e.storedOk)
  }

  /** The last label the user chose among the first n events. */
  function LastChoice(events: seq<Event>, n: nat): Option<string>
    requires n <= |events|
  {
    if n == 0 then None
    else if IsChoice(events[n - 1]) then Some(events[n - 1].value)
    else LastChoice(events, n - 1)
  }

  lemma {:induction false} ChoiceHeld(s0: State, events: seq<Event>, n: nat)
    requires n <= |events| && LastChoice(events, n).Some?
    requires forall i :: 0 <= i < n ==> Succeeds(events[i])
    ensures Confirmed(s0, events, n)
    ensures StateAt(s0, events, n).stored == LastChoice(events, n)
    ensures ChosenMode(LastChoice(events, n).value) == Some(StateAt(s0, events, n).user)
    ensures Label(StateAt(s0, events, n).user) == LastChoice(events, n).value
  {
    var e := events[n - 1];
    assert Succeeds(e);
    if Accepted(e) {
      LabelsRoundTrip(e.value);
    } else {
      ChoiceHeld(s0, events, n - 1);
      LabelsRoundTrip(LastChoice(events, n - 1).value);
    }
  }

  /** Once the user has made a choice, getZoomMode reports it, whatever HDMI did and however often the plugin was
      restarted in between. */
  lemma {:induction false} ReportsLastChoice(s0: State, events: seq<Event>, n: nat)
    requires n <= |events| && LastChoice(events, n).Some?
    requires forall i :: 0 <= i < n ==> Succeeds(events[i])
    ensures Reported(StateAt(s0, events, n)) == LastChoice(events, n).value
  {
    ChoiceHeld(s0, events, n);
    ReportsUserMode(s0, events, n);
  }
}
