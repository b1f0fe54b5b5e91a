/** The pre-join screen's device negotiation (src/components/MeetingSetup.tsx).
    Each device (camera, microphone) has a "disabled" flag. Running the
    device's toggle handler either disables the device, or probes for
    permission, enumerates devices and asks the call SDK to enable it; every
    failure ends in exactly one error toast and a flag put back to disabled.
    The outcomes of getUserMedia, enumerateDevices and the SDK's enable() are
    parameters; the SDK calls and toasts made are recorded as effects. */
module MeetingSetup {
  import opened Prelude
  import opened Text

  datatype Device = Camera | Microphone

  /** A thrown value as the handlers see it: `name` is the Error's name (""
      for a value that is not an Error) and `message` its message (or the
      value converted to a string). */
  datatype MediaError = MediaError(name: string, message: string)

  /** Which error toast is shown. */
  datatype Notice =
    | PermissionNotice
    | NoDeviceNotice        // enumeration found no device of the kind
    | NotFoundNotice        // enable() failed with a not-found error
    | BusyNotice
    | UnsupportedNotice
    | FailureNotice(detail: string)

  /** The SDK, browser and toast calls a handler makes, in order. */
  datatype Effect =
    | Disable(device: Device)
    | Probe(device: Device)          // getUserMedia, tracks stopped at once
    | Enumerate                      // enumerateDevices
    | Enable(device: Device)
    | ShowError(device: Device, notice: Notice)
    | Join
    | SetupComplete

  /** The result of one handler run: the effects and the flag it leaves. */
  datatype Run = Run(effects: seq<Effect>, disabled: bool)

  function Other(d: Device): Device {
    if d == Camera then Microphone else Camera
  }

  /** The MediaDeviceInfo kind `devices.some(...)` looks for. */
  function DeviceKind(d: Device): string {
    if d == Camera then "videoinput" else "audioinput"
  }

  /** "video" for the camera, "audio" for the microphone, as in the
      "Could not start video source" family of messages. */
  function SourceWord(d: Device): string {
    if d == Camera then "video" else "audio"
  }

  function DeviceWord(d: Device): string {
    if d == Camera then "camera" else "microphone"
  }

  function DeviceTitle(d: Device): string {
    if d == Camera then "Camera" else "Microphone"
  }

  /** The toast text for each notice. */
  function NoticeText(d: Device, n: Notice): string {
    match n
    case PermissionNotice =>
      DeviceTitle(d) + " permission denied. Please allow " + DeviceWord(d)
      + " access in your browser settings and refresh the page."
    case NoDeviceNotice =>
      "No " + DeviceWord(d) + " found. Please connect a " + DeviceWord(d) + " device."
    case NotFoundNotice =>
      "No " + DeviceWord(d) + " device found. Please connect a " + DeviceWord(d) + "."
    case BusyNotice =>
      DeviceTitle(d) + " is being used by another application or is locked. Please:\n1. Close other apps using the "
      + DeviceWord(d) + (if d == Camera then " (Zoom, Teams, Skype, etc.)" else "")
      + "\n2. Restart your browser\n3. Check if " + DeviceWord(d) + " is locked by system settings"
    case UnsupportedNotice =>
      DeviceTitle(d) + " settings are not supported. Please try different settings."
    case FailureNotice(detail) => FailureText(d, detail)
  }

  /** The generic failure toast, around the error's own message. */
  function FailureText(d: Device, detail: string): string {
    FailureFront(d) + detail + FailureBack(d)
  }

  function FailureFront(d: Device): string {
    "Failed to enable " + DeviceWord(d) + ": "
  }

  function FailureBack(d: Device): string {
    ". Please check your browser settings and ensure no other apps are using the " + DeviceWord(d) + "."
  }

  /** The permission test applied to a failed probe. */
  predicate ProbeDenied(e: MediaError) {
    e.name == "NotAllowedError" || Contains(e.message, "permission") || Contains(e.message, "Permission")
  }

  /** The four tests of the enable-failure classifier, in the order tried. */
  predicate LooksLikePermission(e: MediaError) {
    Contains(e.message, "Permission") || Contains(e.message, "permission")
    || Contains(e.message, "not granted") || e.name == "NotAllowedError"
  }

  predicate LooksLikeNotFound(e: MediaError) {
    Contains(e.message, "NotFoundError") || e.name == "NotFoundError" || Contains(e.message, "not found")
  }

  predicate LooksBusy(d: Device, e: MediaError) {
    Contains(e.message, "NotReadableError") || e.name == "NotReadableError"
    || Contains(e.message, "Could not start " + SourceWord(d) + " source")
    || Contains(e.message, SourceWord(d) + " source") || Contains(e.message, "in use")
  }

  predicate LooksOverconstrained(e: MediaError) {
    Contains(e.message, "OverconstrainedError") || e.name == "OverconstrainedError"
    || Contains(e.message, "constraint")
  }

  /** The enable-failure classifier: the first test that matches wins;
      otherwise the message itself (or "Unknown error" when it is empty). */
  function Classify(d: Device, e: MediaError): Notice {
    if LooksLikePermission(e) then PermissionNotice
    else if LooksLikeNotFound(e) then NotFoundNotice
    else if LooksBusy(d, e) then BusyNotice
    else if LooksOverconstrained(e) then UnsupportedNotice
    else FailureNotice(if e.message == "" then "Unknown error" else e.message)
  }

  /** The catch block of the enable path: one toast, flag back to disabled. */
  function Fail(d: Device, prefix: seq<Effect>, e: MediaError): Run {
    Run(prefix + [ShowError(d, Classify(d, e))], true)
  }

  /** One run of handleCameraToggle / handleMicToggle, given the flag it
      sees and the outcome each external call would have. `probe` is None
      when getUserMedia succeeds; `devices` is the list of device kinds, or
      the error enumerateDevices throws; `enable` is None when enable()
      succeeds. */
  function ToggleRun(d: Device, hasCall: bool, disabled: bool, probe: Option<MediaError>,
                     devices: Result<seq<string>, MediaError>, enable: Option<MediaError>): Run
  {
    if !hasCall then Run([], disabled)
    else if disabled then Run([Disable(d)], true)
    else if probe.Some? && ProbeDenied(probe.value) then
      Run([Probe(d), ShowError(d, PermissionNotice)], true)
    else if devices.Err? then Fail(d, [Probe(d), Enumerate], devices.error)
    else if DeviceKind(d) !in devices.value then
      Run([Probe(d), Enumerate, ShowError(d, NoDeviceNotice)], true)
    else if enable.Some? then Fail(d, [Probe(d), Enumerate, Enable(d)], enable.value)
    else Run([Probe(d), Enumerate, Enable(d)], false)
  }

  /** The toasts among the effects. */
  function Notices(effects: seq<Effect>): (r: seq<Notice>)
    ensures |r| <= |effects|
  {
    if |effects| == 0 then []
    else (if effects[0].ShowError? then [effects[0].notice] else []) + Notices(effects[1..])
  }

  /** How many times the SDK's enable() is called. */
  function EnableCalls(effects: seq<Effect>): (n: nat)
    ensures n <= |effects|
  {
    if |effects| == 0 then 0
    else (if effects[0].Enable? then 1 else 0) + EnableCalls(effects[1..])
  }

  class Setup {
    /** Whether `useCall()` returned a call. */
    const hasCall: bool
    var isCameraDisabled: bool
    var isMicDisabled: bool
    var effects: seq<Effect>

    /** The initial flags: camera off, microphone on. */
    constructor (hasCall: bool)
      ensures this.hasCall == hasCall
      ensures isCameraDisabled && !isMicDisabled && effects == []
    {
      this.hasCall := hasCall;
      isCameraDisabled := true;
      isMicDisabled := false;
      effects := [];
    }

    function Disabled(d: Device): bool
      reads this
    {
      if d == Camera then isCameraDisabled else isMicDisabled
    }

    method SetDisabled(d: Device, value: bool)
      modifies this
      ensures Disabled(d) == value && Disabled(Other(d)) == old(Disabled(Other(d)))
      ensures effects == old(effects)
    {
      if d == Camera { isCameraDisabled := value; } else { isMicDisabled := value; }
    }

    /** The Switch's onCheckedChange: the flag is the negation of `checked`. */
    method OnSwitchChange(d: Device, checked: bool)
      modifies this
      ensures Disabled(d) == !checked && Disabled(Other(d)) == old(Disabled(Other(d)))
      ensures effects == old(effects)
    {
      SetDisabled(d, !checked);
    }

    /** The shared body of the two toggle handlers. */
    method HandleToggle(d: Device, probe: Option<MediaError>, devices: Result<seq<string>, MediaError>,
                        enable: Option<MediaError>)
      modifies this
      ensures var run := ToggleRun(d, hasCall, old(Disabled(d)), probe, devices, enable);
              effects == old(effects) + run.effects && Disabled(d) == run.disabled
      ensures Disabled(Other(d)) == old(Disabled(Other(d)))
    {
      if !hasCall {
        return;
      }
      if Disabled(d) {
        effects := effects + [Disable(d)];
        return;
      }
      effects := effects + [Probe(d)];
      if probe.Some? && ProbeDenied(probe.value) {
        effects := effects + [ShowError(d, PermissionNotice)];
        SetDisabled(d, true);
        return;
      }
      effects := effects + [Enumerate];
      if devices.Err? {
        effects := effects + [ShowError(d, Classify(d, devices.error))];
        SetDisabled(d, true);
        return;
      }
      if DeviceKind(d) !in devices.value {
        effects := effects + [ShowError(d, NoDeviceNotice)];
        SetDisabled(d, true);
        return;
      }
      effects := effects + [Enable(d)];
      if enable.Some? {
        effects := effects + [ShowError(d, Classify(d, enable.value))];
        SetDisabled(d, true);
      }
    }

    /** handleCameraToggle. */
    method HandleCameraToggle(probe: Option<MediaError>, devices: Result<seq<string>, MediaError>,
                              enable: Option<MediaError>)
      modifies this
      ensures var run := ToggleRun(Camera, hasCall, old(isCameraDisabled), probe, devices, enable);
              effects == old(effects) + run.effects && isCameraDisabled == run.disabled
      ensures isMicDisabled == old(isMicDisabled)
    {
      HandleToggle(Camera, probe, devices, enable);
    }

    /** handleMicToggle. */
    method HandleMicToggle(probe: Option<MediaError>, devices: Result<seq<string>, MediaError>,
                           enable: Option<MediaError>)
      modifies this
      ensures var run := ToggleRun(Microphone, hasCall, old(isMicDisabled), probe, devices, enable);
              effects == old(effects) + run.effects && isMicDisabled == run.disabled
      ensures isCameraDisabled == old(isCameraDisabled)
    {
      HandleToggle(Microphone, probe, devices, enable);
    }

    /** handleJoin: join first, then tell the host page; a failed join
        rejects before onSetupComplete is reached. */
    method HandleJoin(joinSucceeds: bool)
      modifies this
      ensures effects == old(effects) + (if !hasCall then [] else [Join] + (if joinSucceeds then [SetupComplete] else []))
      ensures isCameraDisabled == old(isCameraDisabled) && isMicDisabled == old(isMicDisabled)
    {
      if !hasCall {
        return;
      }
      effects := effects + [Join];
      if joinSucceeds {
        effects := effects + [SetupComplete];
      }
    }
  }

  /** A denied permission is not sticky: after the flag is switched back on,
      the next run goes through the whole sequence again and enables the
      device. */
  method RetryAfterDenial(d: Device, denial: MediaError, kinds: seq<string>)
    returns (effects: seq<Effect>, disabled: bool)
    requires ProbeDenied(denial) && DeviceKind(d) in kinds
    ensures effects == [Probe(d), ShowError(d, PermissionNotice), Probe(d), Enumerate, Enable(d)]
    ensures !disabled
  {
    var s := new Setup(true);
    s.OnSwitchChange(d, true);
    s.HandleToggle(d, Some(denial), Ok(kinds), None);
    assert s.Disabled(d);
    s.OnSwitchChange(d, true);
    s.HandleToggle(d, None, Ok(kinds), None);
    effects := s.effects;
    disabled := s.Disabled(d);
  }

  /** An error none of the four tests recognises is shown as is: the toast
      is the failure notice, and its text contains the message (or
      "Unknown error" when the message is empty). */
  lemma UnrecognisedErrorShown(d: Device, e: MediaError)
    requires !LooksLikePermission(e) && !LooksLikeNotFound(e) && !LooksBusy(d, e) && !LooksOverconstrained(e)
    ensures var detail := if e.message == "" then "Unknown error" else e.message;
            Classify(d, e) == FailureNotice(detail) && Contains(NoticeText(d, Classify(d, e)), detail)
  {
    var detail := if e.message == "" then "Unknown error" else e.message;
    ContainsMiddle(FailureFront(d), detail, FailureBack(d));
  }

  /** With no call, neither handler does anything. */
  lemma NoCallNoEffect(d: Device, disabled: bool, probe: Option<MediaError>,
                       devices: Result<seq<string>, MediaError>, enable: Option<MediaError>)
    ensures ToggleRun(d, false, disabled, probe, devices, enable) == Run([], disabled)
  {
  }

  /** A disabled flag only calls disable(): no probe, no enumeration, no toast. */
  lemma DisabledOnlyDisables(d: Device, probe: Option<MediaError>,
                             devices: Result<seq<string>, MediaError>, enable: Option<MediaError>)
    ensures ToggleRun(d, true, true, probe, devices, enable) == Run([Disable(d)], true)
  {
  }

  /** A permission failure of the probe: one permission toast, flag disabled,
      neither enumerate nor enable is called. */
  lemma ProbeDeniedStops(d: Device, e: MediaError, devices: Result<seq<string>, MediaError>,
                         enable: Option<MediaError>)
    requires ProbeDenied(e)
    ensures var run := ToggleRun(d, true, false, Some(e), devices, enable);
            run == Run([Probe(d), ShowError(d, PermissionNotice)], true)
            && Enumerate !in run.effects && EnableCalls(run.effects) == 0
  {
    CountSingle(Probe(d), [ShowError(d, PermissionNotice)]);
    CountSingle(ShowError(d, PermissionNotice), []);
  }

  /** Any other probe failure is ignored: the run is the same as after a
      successful probe. */
  lemma OtherProbeErrorFallsThrough(d: Device, e: MediaError, devices: Result<seq<string>, MediaError>,
                                    enable: Option<MediaError>)
    requires !ProbeDenied(e)
    ensures ToggleRun(d, true, false, Some(e), devices, enable) == ToggleRun(d, true, false, None, devices, enable)
  {
  }

  /** No device of the right kind: one "no device" toast, flag disabled,
      enable() not called. */
  lemma NoDeviceStops(d: Device, probe: Option<MediaError>, kinds: seq<string>, enable: Option<MediaError>)
    requires !(probe.Some? && ProbeDenied(probe.value)) && DeviceKind(d) !in kinds
    ensures var run := ToggleRun(d, true, false, probe, Ok(kinds), enable);
            run == Run([Probe(d), Enumerate, ShowError(d, NoDeviceNotice)], true)
            && EnableCalls(run.effects) == 0
  {
    CountSingle(Probe(d), [Enumerate, ShowError(d, NoDeviceNotice)]);
    CountSingle(Enumerate, [ShowError(d, NoDeviceNotice)]);
    CountSingle(ShowError(d, NoDeviceNotice), []);
  }

  /** A failing enable(): exactly one classified toast, flag reverted. */
  lemma EnableFailureReverts(d: Device, probe: Option<MediaError>, kinds: seq<string>, e: MediaError)
    requires !(probe.Some? && ProbeDenied(probe.value)) && DeviceKind(d) in kinds
    ensures ToggleRun(d, true, false, probe, Ok(kinds), Some(e))
            == Run([Probe(d), Enumerate, Enable(d), ShowError(d, Classify(d, e))], true)
  {
  }

  /** A successful enable(): the flag stays enabled and nothing is shown. */
  lemma EnableSuccessKeepsEnabled(d: Device, probe: Option<MediaError>, kinds: seq<string>)
    requires !(probe.Some? && ProbeDenied(probe.value)) && DeviceKind(d) in kinds
    ensures var run := ToggleRun(d, true, false, probe, Ok(kinds), None);
            run == Run([Probe(d), Enumerate, Enable(d)], false) && Notices(run.effects) == []
  {
    EnablingRunOutcome(d, probe, Ok(kinds), None);
  }

  /** Whatever the outcomes, an enabling run shows exactly one toast when it
      ends disabled and none when it ends enabled, and it calls enable() at
      most once; it ends enabled only when enable() was called and succeeded. */
  lemma {:induction false} EnablingRunOutcome(d: Device, probe: Option<MediaError>,
                                              devices: Result<seq<string>, MediaError>, enable: Option<MediaError>)
    ensures var run := ToggleRun(d, true, false, probe, devices, enable);
            |Notices(run.effects)| == (if run.disabled then 1 else 0)
            && EnableCalls(run.effects) <= 1
            && (!run.disabled <==> EnableCalls(run.effects) == 1 && enable.None?)
  {
    PrefixCounts(d);
    if probe.Some? && ProbeDenied(probe.value) {
      assert [Probe(d), ShowError(d, PermissionNotice)] == [Probe(d)] + [ShowError(d, PermissionNotice)];
      ToastCounts([Probe(d)], ShowError(d, PermissionNotice));
    } else if devices.Err? {
      ToastCounts([Probe(d), Enumerate], ShowError(d, Classify(d, devices.error)));
    } else if DeviceKind(d) !in devices.value {
      assert [Probe(d), Enumerate, ShowError(d, NoDeviceNotice)] == [Probe(d), Enumerate] + [ShowError(d, NoDeviceNotice)];
      ToastCounts([Probe(d), Enumerate], ShowError(d, NoDeviceNotice));
    } else if enable.Some? {
      ToastCounts([Probe(d), Enumerate, Enable(d)], ShowError(d, Classify(d, enable.value)));
    }
  }

  /** The three effect prefixes a run goes through, counted. */
  lemma PrefixCounts(d: Device)
    ensures Notices([Probe(d)]) == [] && EnableCalls([Probe(d)]) == 0
    ensures Notices([Probe(d), Enumerate]) == [] && EnableCalls([Probe(d), Enumerate]) == 0
    ensures Notices([Probe(d), Enumerate, Enable(d)]) == [] && EnableCalls([Probe(d), Enumerate, Enable(d)]) == 1
  {
    CountSingle(Probe(d), []);
    CountSingle(Probe(d), [Enumerate]);
    CountSingle(Enumerate, []);
    CountSingle(Probe(d), [Enumerate, Enable(d)]);
    CountSingle(Enumerate, [Enable(d)]);
    CountSingle(Enable(d), []);
  }

  /** A toast appended to a prefix adds one notice and no enable() call. */
  lemma ToastCounts(prefix: seq<Effect>, toast: Effect)
    requires toast.ShowError?
    ensures Notices(prefix + [toast]) == Notices(prefix) + [toast.notice]
    ensures EnableCalls(prefix + [toast]) == EnableCalls(prefix)
  {
    CountAppend(prefix, [toast]);
    CountSingle(toast, []);
  }

  /** Notices keeps every toast and nothing else: it is empty exactly when
      no effect is a toast, and every toast shown is in it. */
  lemma {:induction false} NoticesAreTheToasts(effects: seq<Effect>)
    ensures Notices(effects) == [] <==> forall e | e in effects :: !e.ShowError?
    ensures forall e | e in effects && e.ShowError? :: e.notice in Notices(effects)
    decreases |effects|
  {
    if |effects| > 0 {
      var tail := effects[1..];
      NoticesAreTheToasts(tail);
      assert effects == [effects[0]] + tail;
      assert forall e | e in effects :: e == effects[0] || e in tail;
    }
  }

  /** EnableCalls is zero exactly when no effect is an enable() call. */
  lemma {:induction false} NoEnableCallsIff(effects: seq<Effect>)
    ensures EnableCalls(effects) == 0 <==> forall e | e in effects :: !e.Enable?
    decreases |effects|
  {
    if |effects| > 0 {
      var tail := effects[1..];
      NoEnableCallsIff(tail);
      assert effects == [effects[0]] + tail;
      assert forall e | e in effects :: e == effects[0] || e in tail;
    }
  }

  lemma CountSingle(e: Effect, rest: seq<Effect>)
    ensures Notices([e] + rest) == (if e.ShowError? then [e.notice] else []) + Notices(rest)
    ensures EnableCalls([e] + rest) == (if e.Enable? then 1 else 0) + EnableCalls(rest)
  {
    assert ([e] + rest)[1..] == rest;
  }

  lemma {:induction false} CountAppend(a: seq<Effect>, b: seq<Effect>)
    ensures Notices(a + b) == Notices(a) + Notices(b)
    ensures EnableCalls(a + b) == EnableCalls(a) + EnableCalls(b)
  {
    if |a| == 0 {
      assert a + b == b;
    } else {
      var ab := a + b;
      assert ab[0] == a[0] && ab[1..] == a[1..] + b;
      CountAppend(a[1..], b);
      assert Notices(ab) == (if a[0].ShowError? then [a[0].notice] else []) + Notices(a[1..] + b);
    }
  }

  /** The classifier's precedence: each test only applies when every earlier
      one failed. */
  lemma ClassifyPrecedence(d: Device, e: MediaError)
    ensures LooksLikePermission(e) ==> Classify(d, e) == PermissionNotice
    ensures !LooksLikePermission(e) && LooksLikeNotFound(e) ==> Classify(d, e) == NotFoundNotice
    ensures !LooksLikePermission(e) && !LooksLikeNotFound(e) && LooksBusy(d, e) ==> Classify(d, e) == BusyNotice
    ensures !LooksLikePermission(e) && !LooksLikeNotFound(e) && !LooksBusy(d, e) && LooksOverconstrained(e)
            ==> Classify(d, e) == UnsupportedNotice
    ensures Classify(d, e).FailureNotice? <==>
            !LooksLikePermission(e) && !LooksLikeNotFound(e) && !LooksBusy(d, e) && !LooksOverconstrained(e)
  {
  }

  /** A not-found error whose message mentions permission is reported as a
      permission problem, because that test comes first. */
  lemma PermissionBeatsNotFound(d: Device)
    ensures Classify(d, MediaError("NotFoundError", "permission")) == PermissionNotice
  {
    assert StartsWith("permission", "permission");
  }

  /** An unclassified failure with an empty message reads "Unknown error". */
  lemma EmptyMessageIsUnknown(d: Device)
    ensures Classify(d, MediaError("", "")) == FailureNotice("Unknown error")
  {
    assert !Contains("", "Permission") && !Contains("", "permission") && !Contains("", "not granted");
    assert !Contains("", "NotFoundError") && !Contains("", "not found");
    assert !Contains("", "NotReadableError") && !Contains("", "in use");
    assert !Contains("", "Could not start " + SourceWord(d) + " source") && !Contains("", SourceWord(d) + " source");
    assert !Contains("", "OverconstrainedError") && !Contains("", "constraint");
  }

  /** The probe's permission test is narrower than the classifier's: "not
      granted" passes the probe but is classified as a permission problem
      once enable() fails with it. */
  lemma NotGrantedOnlyCaughtLater(d: Device)
    ensures !ProbeDenied(MediaError("", "not granted"))
    ensures LooksLikePermission(MediaError("", "not granted"))
  {
    var m := "not granted";
    assert StartsWith(m, m);
    assert forall i :: 0 <= i < |m| ==> m[i] != 'p' && m[i] != 'P';
    NotContainsWithoutFirst("not granted", "permission");
    NotContainsWithoutFirst("not granted", "Permission");
  }
}
