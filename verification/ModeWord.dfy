/**
 The packed mode word of `firmware/components/mode_state/mode_state.c`: the bit-level field
 helpers, `next_control` and `dap_policy_stamp` on a 32-bit word, the plain record the word
 stands for, and the proof that the word refines the record.
 */
module ModeWord {
  import opened Options

  // ---------------------------------------------------------------- layout

  const USB_PRESENT: bv32 := 0x0000_0001
  const WIFI_MASK: bv32 := 0x0000_0006
  const PROVISIONING_MASK: bv32 := 0x0000_0018
  const OTA_MASK: bv32 := 0x0000_0060
  const INITIALIZED: bv32 := 0x0000_0080
  const USB_OTA_EPOCH_MASK: bv32 := 0x0000_FF00
  const WIFI_EPOCH_MASK: bv32 := 0x00FF_0000
  const SHELL_ACTIVE: bv32 := 0x0100_0000
  const SHELL_EPOCH_MASK: bv32 := 0x3E00_0000
  const ROUTE_MASK: bv32 := 0xC000_0000

  datatype Wifi = Stopped | Disconnected | Connecting | Online

  datatype Provisioning = ProvisioningIdle | Active | Succeeded | TimedOut

  datatype Ota = Idle | Receiving | ReadyToReboot | OtaUnused

  datatype Route = Auto | UsbRoute | NetworkRoute | RouteUnused

  datatype Event =
    | UsbAttached | UsbDetached
    | WifiStopped | WifiDisconnected | WifiConnecting | WifiOnline
    | ProvisioningStarted | ProvisioningSucceeded | ProvisioningTimedOut | ProvisioningReset
    | OtaStarted | OtaAborted | OtaFailed | OtaCommitted | OtaReset
    | ShellStarted | ShellEnded

  predicate IsOtaEvent(e: Event) {
    e.OtaStarted? || e.OtaAborted? || e.OtaFailed? || e.OtaCommitted? || e.OtaReset?
  }

  predicate IsUsbOtaEvent(e: Event) {
    IsUsbEvent(e) || IsOtaEvent(e)
  }

  predicate IsWifiEvent(e: Event) {
    e.WifiStopped? || e.WifiDisconnected? || e.WifiConnecting? || e.WifiOnline?
  }

  predicate IsUsbEvent(e: Event) {
    e.UsbAttached? || e.UsbDetached?
  }

  predicate IsShellEvent(e: Event) {
    e.ShellStarted? || e.ShellEnded?
  }

  predicate IsProvisioningEvent(e: Event) {
    e.ProvisioningStarted? || e.ProvisioningSucceeded? || e.ProvisioningTimedOut? || e.ProvisioningReset?
  }

  // ---------------------------------------------------------------- the word

  function ReplaceField(control: bv32, mask: bv32, shift: bv8, value: bv32): bv32
    requires shift < 32
  {
    (control & !mask) | (value << shift)
  }

  function FieldValue(control: bv32, mask: bv32, shift: bv8): bv32
    requires shift < 32
  {
    (control & mask) >> shift
  }

  function IncrementField(control: bv32, mask: bv32, shift: bv8): bv32
    requires shift < 32
  {
    ReplaceField(control, mask, shift, (FieldValue(control, mask, shift) + 1) & (mask >> shift))
  }

  /** The word cut at its masks. */
  datatype Bits = Bits(
    usb: bool, wifi: bv2, provisioning: bv2, ota: bv2, initialized: bool,
    usbOtaEpoch: bv8, wifiEpoch: bv8, shell: bool, shellEpoch: bv5, route: bv2)

  function Cut(w: bv32): Bits {
    Bits(w & USB_PRESENT != 0,
         FieldValue(w, WIFI_MASK, 1) as bv2,
         FieldValue(w, PROVISIONING_MASK, 3) as bv2,
         FieldValue(w, OTA_MASK, 5) as bv2,
         w & INITIALIZED != 0,
         FieldValue(w, USB_OTA_EPOCH_MASK, 8) as bv8,
         FieldValue(w, WIFI_EPOCH_MASK, 16) as bv8,
         w & SHELL_ACTIVE != 0,
         FieldValue(w, SHELL_EPOCH_MASK, 25) as bv5,
         FieldValue(w, ROUTE_MASK, 30) as bv2)
  }

  /** What the fields mean. */
  datatype Fields = Fields(
    usb: bool, wifi: Wifi, provisioning: Provisioning, ota: Ota, initialized: bool,
    usbOtaEpoch: nat, wifiEpoch: nat, shell: bool, shellEpoch: nat, route: Route)

  function WifiOf(v: bv2): Wifi {
    if v == 0 then Stopped else if v == 1 then Disconnected else if v == 2 then Connecting else Online
  }

  function WifiCode(v: Wifi): bv2 {
    match v case Stopped => 0 case Disconnected => 1 case Connecting => 2 case Online => 3
  }

  function ProvisioningOf(v: bv2): Provisioning {
    if v == 0 then ProvisioningIdle else if v == 1 then Active else if v == 2 then Succeeded else TimedOut
  }

  function ProvisioningCode(v: Provisioning): bv2 {
    match v case ProvisioningIdle => 0 case Active => 1 case Succeeded => 2 case TimedOut => 3
  }

  function OtaOf(v: bv2): Ota {
    if v == 0 then Idle else if v == 1 then Receiving else if v == 2 then ReadyToReboot else OtaUnused
  }

  function OtaCode(v: Ota): bv2 {
    match v case Idle => 0 case Receiving => 1 case ReadyToReboot => 2 case OtaUnused => 3
  }

  function RouteOf(v: bv2): Route {
    if v == 0 then Auto else if v == 1 then UsbRoute else if v == 2 then NetworkRoute else RouteUnused
  }

  function RouteCode(v: Route): bv2 {
    match v case Auto => 0 case UsbRoute => 1 case NetworkRoute => 2 case RouteUnused => 3
  }

  function Meaning(b: Bits): Fields {
    Fields(b.usb, WifiOf(b.wifi), ProvisioningOf(b.provisioning), OtaOf(b.ota), b.initialized,
           b.usbOtaEpoch as nat, b.wifiEpoch as nat, b.shell, b.shellEpoch as nat, RouteOf(b.route))
  }

  function Unpack(w: bv32): Fields {
    Meaning(Cut(w))
  }

  function SetWifi(w: bv32, v: Wifi): bv32 { ReplaceField(w, WIFI_MASK, 1, WifiCode(v) as bv32) }
  function SetProvisioning(w: bv32, v: Provisioning): bv32 {
    ReplaceField(w, PROVISIONING_MASK, 3, ProvisioningCode(v) as bv32)
  }
  function SetOta(w: bv32, v: Ota): bv32 { ReplaceField(w, OTA_MASK, 5, OtaCode(v) as bv32) }
  function SetRoute(w: bv32, v: Route): bv32 { ReplaceField(w, ROUTE_MASK, 30, RouteCode(v) as bv32) }
  function SetUsb(w: bv32, b: bool): bv32 { if b then w | USB_PRESENT else w & !USB_PRESENT }
  function SetShell(w: bv32, b: bool): bv32 { if b then w | SHELL_ACTIVE else w & !SHELL_ACTIVE }
  function BumpUsbOta(w: bv32): bv32 { IncrementField(w, USB_OTA_EPOCH_MASK, 8) }
  function BumpWifi(w: bv32): bv32 { IncrementField(w, WIFI_EPOCH_MASK, 16) }
  function BumpShell(w: bv32): bv32 { IncrementField(w, SHELL_EPOCH_MASK, 25) }
  predicate ShellFlipped(v: bv32, w: bv32) { (v ^ w) & SHELL_ACTIVE != 0 }

  // `next_control` before any epoch is bumped; None is INVALID_TRANSITION.
  function EventControl(w: bv32, event: Event): Option<bv32> {
    var f := Unpack(w);
    match event
    case UsbAttached => Some(SetUsb(w, true))
    case UsbDetached => Some(SetUsb(w, false))
    case ShellStarted => Some(SetShell(w, true))
    case ShellEnded => Some(SetShell(w, false))
    case WifiStopped => Some(SetWifi(w, Stopped))
    case WifiDisconnected => if f.wifi == Stopped then None else Some(SetWifi(w, Disconnected))
    case WifiConnecting => Some(SetWifi(w, Connecting))
    case WifiOnline => if f.wifi != Connecting then None else Some(SetWifi(w, Online))
    case ProvisioningStarted =>
      if f.provisioning == Active then None else Some(SetProvisioning(w, Active))
    case ProvisioningSucceeded =>
      if f.provisioning != Active then None else Some(SetProvisioning(w, Succeeded))
    case ProvisioningTimedOut =>
      if f.provisioning != Active then None else Some(SetProvisioning(w, TimedOut))
    case ProvisioningReset => Some(SetProvisioning(w, ProvisioningIdle))
    case OtaStarted => if f.ota != Idle then None else Some(SetOta(w, Receiving))
    case OtaAborted => if f.ota != Receiving then None else Some(SetOta(w, Idle))
    case OtaFailed => if f.ota != Receiving then None else Some(SetOta(w, Idle))
    case OtaCommitted => if f.ota != Receiving then None else Some(SetOta(w, ReadyToReboot))
    case OtaReset => Some(SetOta(w, Idle))
  }

  // The epoch `next_control` bumps after `next` has been formed.
  function CountControl(w: bv32, next: bv32, event: Event): bv32 {
    if IsUsbOtaEvent(event) then BumpUsbOta(next)
    else if IsWifiEvent(event) then BumpWifi(next)
    else if ShellFlipped(w, next) then BumpShell(next)
    else next
  }

  function NextControl(w: bv32, event: Event): Option<bv32> {
    match EventControl(w, event)
    case None => None
    case Some(next) => Some(CountControl(w, next, event))
  }

  // What `set_dap_route` publishes.
  function PublishRoute(w: bv32, route: Route): bv32 {
    BumpUsbOta(SetRoute(w, route))
  }

  function PolicyStamp(w: bv32, network: bool): bv32 {
    var stamp := w & (USB_PRESENT | OTA_MASK | USB_OTA_EPOCH_MASK | ROUTE_MASK);
    if network then stamp | (w & (WIFI_MASK | WIFI_EPOCH_MASK)) else stamp
  }

  // ---------------------------------------------------------------- the record

  // An event sets its own field; None when the current field refuses it.
  function SetByEvent(f: Fields, event: Event): Option<Fields> {
    match event
    case UsbAttached => Some(f.(usb := true))
    case UsbDetached => Some(f.(usb := false))
    case ShellStarted => Some(f.(shell := true))
    case ShellEnded => Some(f.(shell := false))
    case WifiStopped => Some(f.(wifi := Stopped))
    case WifiDisconnected => if f.wifi == Stopped then None else Some(f.(wifi := Disconnected))
    case WifiConnecting => Some(f.(wifi := Connecting))
    case WifiOnline => if f.wifi != Connecting then None else Some(f.(wifi := Online))
    case ProvisioningStarted =>
      if f.provisioning == Active then None else Some(f.(provisioning := Active))
    case ProvisioningSucceeded =>
      if f.provisioning != Active then None else Some(f.(provisioning := Succeeded))
    case ProvisioningTimedOut =>
      if f.provisioning != Active then None else Some(f.(provisioning := TimedOut))
    case ProvisioningReset => Some(f.(provisioning := ProvisioningIdle))
    case OtaStarted => if f.ota != Idle then None else Some(f.(ota := Receiving))
    case OtaAborted => if f.ota != Receiving then None else Some(f.(ota := Idle))
    case OtaFailed => if f.ota != Receiving then None else Some(f.(ota := Idle))
    case OtaCommitted => if f.ota != Receiving then None else Some(f.(ota := ReadyToReboot))
    case OtaReset => Some(f.(ota := Idle))
  }

  // Every USB or OTA event and every Wi-Fi event counts; the shell counts only real changes.
  function Counted(f: Fields, g: Fields, event: Event): Fields {
    if IsUsbOtaEvent(event) then g.(usbOtaEpoch := (g.usbOtaEpoch + 1) % 256)
    else if IsWifiEvent(event) then g.(wifiEpoch := (g.wifiEpoch + 1) % 256)
    else if f.shell != g.shell then g.(shellEpoch := (g.shellEpoch + 1) % 32)
    else g
  }

  /** The plain state machine the word stands for. */
  function NextFields(f: Fields, event: Event): Option<Fields> {
    match SetByEvent(f, event)
    case None => None
    case Some(g) => Some(Counted(f, g, event))
  }

  lemma SetTouches(f: Fields, event: Event)
    requires SetByEvent(f, event).Some?
    ensures var g := SetByEvent(f, event).value;
            && g.route == f.route && g.initialized == f.initialized
            && g.usbOtaEpoch == f.usbOtaEpoch && g.wifiEpoch == f.wifiEpoch && g.shellEpoch == f.shellEpoch
            && (!IsUsbEvent(event) ==> g.usb == f.usb)
            && (!IsOtaEvent(event) ==> g.ota == f.ota)
            && (!IsWifiEvent(event) ==> g.wifi == f.wifi)
            && (!IsShellEvent(event) ==> g.shell == f.shell)
            && (!IsProvisioningEvent(event) ==> g.provisioning == f.provisioning)
  {
  }

  lemma CountTouches(f: Fields, g: Fields, event: Event)
    ensures var h := Counted(f, g, event);
            && h.(usbOtaEpoch := 0, wifiEpoch := 0, shellEpoch := 0)
               == g.(usbOtaEpoch := 0, wifiEpoch := 0, shellEpoch := 0)
            && h.usbOtaEpoch == (if IsUsbOtaEvent(event) then (g.usbOtaEpoch + 1) % 256 else g.usbOtaEpoch)
            && h.wifiEpoch == (if IsWifiEvent(event) then (g.wifiEpoch + 1) % 256 else g.wifiEpoch)
            && h.shellEpoch == (if !IsUsbOtaEvent(event) && !IsWifiEvent(event) && f.shell != g.shell
                                then (g.shellEpoch + 1) % 32 else g.shellEpoch)
  {
  }

  /** An event changes its own field and counts in its own epoch; every other field keeps its value. */
  lemma EventTouches(f: Fields, event: Event)
    requires NextFields(f, event).Some?
    ensures var h := NextFields(f, event).value;
            && h.route == f.route && h.initialized == f.initialized
            && (!IsUsbEvent(event) ==> h.usb == f.usb)
            && (!IsOtaEvent(event) ==> h.ota == f.ota)
            && (!IsWifiEvent(event) ==> h.wifi == f.wifi)
            && (!IsShellEvent(event) ==> h.shell == f.shell)
            && (!IsProvisioningEvent(event) ==> h.provisioning == f.provisioning)
            && h.usbOtaEpoch == (if IsUsbOtaEvent(event) then (f.usbOtaEpoch + 1) % 256 else f.usbOtaEpoch)
            && h.wifiEpoch == (if IsWifiEvent(event) then (f.wifiEpoch + 1) % 256 else f.wifiEpoch)
            && h.shellEpoch == (if h.shell != f.shell then (f.shellEpoch + 1) % 32 else f.shellEpoch)
  {
    hide SetByEvent;
    hide Counted;
    SetTouches(f, event);
    CountTouches(f, SetByEvent(f, event).value, event);
  }

  function RouteFields(f: Fields, route: Route): Fields {
    f.(route := route, usbOtaEpoch := (f.usbOtaEpoch + 1) % 256)
  }

  // ---------------------------------------------------------------- word refines record

  lemma ReplaceWifi(w: bv32, v: bv2)
    ensures Cut(ReplaceField(w, WIFI_MASK, 1, v as bv32)) == Cut(w).(wifi := v)
  {
  }

  lemma ReplaceProvisioning(w: bv32, v: bv2)
    ensures Cut(ReplaceField(w, PROVISIONING_MASK, 3, v as bv32)) == Cut(w).(provisioning := v)
  {
  }

  lemma ReplaceOta(w: bv32, v: bv2)
    ensures Cut(ReplaceField(w, OTA_MASK, 5, v as bv32)) == Cut(w).(ota := v)
  {
  }

  lemma ReplaceRoute(w: bv32, v: bv2)
    ensures Cut(ReplaceField(w, ROUTE_MASK, 30, v as bv32)) == Cut(w).(route := v)
  {
  }

  lemma RaiseUsb(w: bv32)
    ensures Cut(SetUsb(w, true)) == Cut(w).(usb := true)
  {
  }

  lemma ClearUsb(w: bv32)
    ensures Cut(SetUsb(w, false)) == Cut(w).(usb := false)
  {
  }

  lemma RaiseShell(w: bv32)
    ensures Cut(SetShell(w, true)) == Cut(w).(shell := true)
  {
  }

  lemma ClearShell(w: bv32)
    ensures Cut(SetShell(w, false)) == Cut(w).(shell := false)
  {
  }

  lemma CountUsbOta(w: bv32)
    ensures Cut(BumpUsbOta(w)) == Cut(w).(usbOtaEpoch := Cut(w).usbOtaEpoch + 1)
  {
  }

  lemma CountWifi(w: bv32)
    ensures Cut(BumpWifi(w)) == Cut(w).(wifiEpoch := Cut(w).wifiEpoch + 1)
  {
  }

  lemma CountShell(w: bv32)
    ensures Cut(BumpShell(w)) == Cut(w).(shellEpoch := Cut(w).shellEpoch + 1)
  {
  }

  lemma CutShell(v: bv32, w: bv32)
    ensures ShellFlipped(v, w) <==> Cut(v).shell != Cut(w).shell
  {
  }

  // An epoch counts modulo its width.
  lemma ByteCounts(e: bv8)
    ensures (e + 1) as nat == (e as nat + 1) % 256
  {
  }

  lemma FiveBitsCount(e: bv5)
    ensures (e + 1) as nat == (e as nat + 1) % 32
  {
  }

  lemma CodesMean(wifi: Wifi, provisioning: Provisioning, ota: Ota, route: Route)
    ensures WifiOf(WifiCode(wifi)) == wifi && ProvisioningOf(ProvisioningCode(provisioning)) == provisioning
    ensures OtaOf(OtaCode(ota)) == ota && RouteOf(RouteCode(route)) == route
  {
  }

  lemma SetWifiFields(w: bv32, v: Wifi)
    ensures Unpack(SetWifi(w, v)) == Unpack(w).(wifi := v)
  {
    hide Cut;
    hide ReplaceField;
    hide WifiOf;
    hide WifiCode;
    ReplaceWifi(w, WifiCode(v));
    CodesMean(v, Active, Idle, Auto);
  }

  lemma SetProvisioningFields(w: bv32, v: Provisioning)
    ensures Unpack(SetProvisioning(w, v)) == Unpack(w).(provisioning := v)
  {
    hide Cut;
    hide ReplaceField;
    hide ProvisioningOf;
    hide ProvisioningCode;
    ReplaceProvisioning(w, ProvisioningCode(v));
    CodesMean(Online, v, Idle, Auto);
  }

  lemma SetOtaFields(w: bv32, v: Ota)
    ensures Unpack(SetOta(w, v)) == Unpack(w).(ota := v)
  {
    hide Cut;
    hide ReplaceField;
    hide OtaOf;
    hide OtaCode;
    ReplaceOta(w, OtaCode(v));
    CodesMean(Online, Active, v, Auto);
  }

  lemma SetRouteFields(w: bv32, v: Route)
    ensures Unpack(SetRoute(w, v)) == Unpack(w).(route := v)
  {
    hide Cut;
    hide ReplaceField;
    hide RouteOf;
    hide RouteCode;
    ReplaceRoute(w, RouteCode(v));
    CodesMean(Online, Active, Idle, v);
  }

  lemma SetUsbFields(w: bv32, b: bool)
    ensures Unpack(SetUsb(w, b)) == Unpack(w).(usb := b)
  {
    hide Cut;
    hide SetUsb;
    RaiseUsb(w);
    ClearUsb(w);
  }

  lemma SetShellFields(w: bv32, b: bool)
    ensures Unpack(SetShell(w, b)) == Unpack(w).(shell := b)
  {
    hide Cut;
    hide SetShell;
    RaiseShell(w);
    ClearShell(w);
  }

  lemma BumpUsbOtaFields(w: bv32)
    ensures Unpack(BumpUsbOta(w)) == Unpack(w).(usbOtaEpoch := (Unpack(w).usbOtaEpoch + 1) % 256)
  {
    hide Cut;
    hide BumpUsbOta;
    CountUsbOta(w);
    ByteCounts(Cut(w).usbOtaEpoch);
  }

  lemma BumpWifiFields(w: bv32)
    ensures Unpack(BumpWifi(w)) == Unpack(w).(wifiEpoch := (Unpack(w).wifiEpoch + 1) % 256)
  {
    hide Cut;
    hide BumpWifi;
    CountWifi(w);
    ByteCounts(Cut(w).wifiEpoch);
  }

  lemma BumpShellFields(w: bv32)
    ensures Unpack(BumpShell(w)) == Unpack(w).(shellEpoch := (Unpack(w).shellEpoch + 1) % 32)
  {
    hide Cut;
    hide BumpShell;
    CountShell(w);
    FiveBitsCount(Cut(w).shellEpoch);
  }

  lemma ShellFlippedFields(v: bv32, w: bv32)
    ensures ShellFlipped(v, w) <==> Unpack(v).shell != Unpack(w).shell
  {
    hide Cut;
    hide ShellFlipped;
    CutShell(v, w);
  }

  predicate SetRefines(w: bv32, event: Event) {
    match EventControl(w, event)
    case None => SetByEvent(Unpack(w), event) == None
    case Some(next) => SetByEvent(Unpack(w), event) == Some(Unpack(next))
  }

  lemma FlagEventRefines(w: bv32, event: Event)
    requires event.UsbAttached? || event.UsbDetached? || event.ShellStarted? || event.ShellEnded?
    ensures SetRefines(w, event)
  {
    hide Unpack;
    hide SetUsb;
    hide SetShell;
    match event {
      case UsbAttached => SetUsbFields(w, true);
      case UsbDetached => SetUsbFields(w, false);
      case ShellStarted => SetShellFields(w, true);
      case ShellEnded => SetShellFields(w, false);
    }
  }

  lemma WifiEventRefines(w: bv32, event: Event)
    requires IsWifiEvent(event)
    ensures SetRefines(w, event)
  {
    hide Unpack;
    hide SetWifi;
    match event {
      case WifiStopped => SetWifiFields(w, Stopped);
      case WifiDisconnected => SetWifiFields(w, Disconnected);
      case WifiConnecting => SetWifiFields(w, Connecting);
      case WifiOnline => SetWifiFields(w, Online);
    }
  }

  lemma OtaAdvanceRefines(w: bv32, event: Event)
    requires event.OtaStarted? || event.OtaCommitted?
    ensures SetRefines(w, event)
  {
    hide Unpack;
    hide SetOta;
    match event {
      case OtaStarted => SetOtaFields(w, Receiving);
      case OtaCommitted => SetOtaFields(w, ReadyToReboot);
    }
  }

  lemma OtaIdleRefines(w: bv32, event: Event)
    requires event.OtaAborted? || event.OtaFailed? || event.OtaReset?
    ensures SetRefines(w, event)
  {
    hide Unpack;
    hide SetOta;
    SetOtaFields(w, Idle);
  }

  lemma ProvisioningEventRefines(w: bv32, event: Event)
    requires event.ProvisioningStarted? || event.ProvisioningSucceeded? || event.ProvisioningTimedOut? ||
             event.ProvisioningReset?
    ensures SetRefines(w, event)
  {
    hide Unpack;
    hide SetProvisioning;
    match event {
      case ProvisioningStarted => SetProvisioningFields(w, Active);
      case ProvisioningSucceeded => SetProvisioningFields(w, Succeeded);
      case ProvisioningTimedOut => SetProvisioningFields(w, TimedOut);
      case ProvisioningReset => SetProvisioningFields(w, ProvisioningIdle);
    }
  }

  lemma CountRefines(w: bv32, next: bv32, event: Event)
    ensures Unpack(CountControl(w, next, event)) == Counted(Unpack(w), Unpack(next), event)
  {
    hide Unpack;
    hide BumpUsbOta;
    hide BumpWifi;
    hide BumpShell;
    hide ShellFlipped;
    BumpUsbOtaFields(next);
    BumpWifiFields(next);
    BumpShellFields(next);
    ShellFlippedFields(w, next);
  }

  /** The packed word takes an event exactly when the record does, and both then hold the same fields. */
  lemma NextControlRefines(w: bv32, event: Event)
    ensures match NextControl(w, event)
            case None => NextFields(Unpack(w), event) == None
            case Some(next) => NextFields(Unpack(w), event) == Some(Unpack(next))
  {
    hide Unpack;
    hide EventControl;
    hide SetByEvent;
    hide CountControl;
    hide Counted;
    if event.UsbAttached? || event.UsbDetached? || event.ShellStarted? || event.ShellEnded? {
      FlagEventRefines(w, event);
    } else if IsWifiEvent(event) {
      WifiEventRefines(w, event);
    } else if event.OtaStarted? || event.OtaCommitted? {
      OtaAdvanceRefines(w, event);
    } else if IsOtaEvent(event) {
      OtaIdleRefines(w, event);
    } else {
      ProvisioningEventRefines(w, event);
    }
    if EventControl(w, event).Some? {
      CountRefines(w, EventControl(w, event).value, event);
    }
  }

  lemma PublishRouteRefines(w: bv32, route: Route)
    ensures Unpack(PublishRoute(w, route)) == RouteFields(Unpack(w), route)
  {
    hide Unpack;
    hide BumpUsbOta;
    hide SetRoute;
    SetRouteFields(w, route);
    BumpUsbOtaFields(SetRoute(w, route));
  }

  // ---------------------------------------------------------------- the policy stamp

  predicate SamePolicyFields(f: Fields, g: Fields, network: bool) {
    && f.usb == g.usb && f.ota == g.ota && f.usbOtaEpoch == g.usbOtaEpoch && f.route == g.route
    && (network ==> f.wifi == g.wifi && f.wifiEpoch == g.wifiEpoch)
  }

  function Under(w: bv32, mask: bv32): bv32 { w & mask }

  function Both(a: bv32, b: bv32): bv32 { a | b }

  predicate SameUnder(v: bv32, w: bv32, mask: bv32) {
    Under(v, mask) == Under(w, mask)
  }

  lemma UnderBoth(w: bv32, a: bv32, b: bv32)
    ensures Under(w, Both(a, b)) == Both(Under(w, a), Under(w, b))
  {
    assert w & (a | b) == (w & a) | (w & b);
  }

  lemma UnderLeft(w: bv32, a: bv32, b: bv32)
    ensures Under(Under(w, Both(a, b)), a) == Under(w, a)
  {
    assert (w & (a | b)) & a == w & a;
  }

  lemma UnderRight(w: bv32, a: bv32, b: bv32)
    ensures Under(Under(w, Both(a, b)), b) == Under(w, b)
  {
    assert (w & (a | b)) & b == w & b;
  }

  lemma SameUnderBoth(v: bv32, w: bv32, a: bv32, b: bv32)
    ensures SameUnder(v, w, Both(a, b)) <==> SameUnder(v, w, a) && SameUnder(v, w, b)
  {
    hide Under;
    hide Both;
    UnderLeft(v, a, b);
    UnderLeft(w, a, b);
    UnderRight(v, a, b);
    UnderRight(w, a, b);
    UnderBoth(v, a, b);
    UnderBoth(w, a, b);
  }

  lemma SameUsb(v: bv32, w: bv32)
    ensures SameUnder(v, w, USB_PRESENT) <==> Cut(v).usb == Cut(w).usb
  {
  }

  lemma SameOta(v: bv32, w: bv32)
    ensures SameUnder(v, w, OTA_MASK) <==> Cut(v).ota == Cut(w).ota
  {
  }

  lemma SameUsbOtaEpoch(v: bv32, w: bv32)
    ensures SameUnder(v, w, USB_OTA_EPOCH_MASK) <==> Cut(v).usbOtaEpoch == Cut(w).usbOtaEpoch
  {
  }

  lemma SameRoute(v: bv32, w: bv32)
    ensures SameUnder(v, w, ROUTE_MASK) <==> Cut(v).route == Cut(w).route
  {
  }

  lemma SameWifi(v: bv32, w: bv32)
    ensures SameUnder(v, w, WIFI_MASK) <==> Cut(v).wifi == Cut(w).wifi
  {
  }

  lemma SameWifiEpoch(v: bv32, w: bv32)
    ensures SameUnder(v, w, WIFI_EPOCH_MASK) <==> Cut(v).wifiEpoch == Cut(w).wifiEpoch
  {
  }

  lemma SameInitialized(v: bv32, w: bv32)
    ensures SameUnder(v, w, INITIALIZED) <==> Cut(v).initialized == Cut(w).initialized
  {
  }

  lemma SameShell(v: bv32, w: bv32)
    ensures SameUnder(v, w, SHELL_ACTIVE) <==> Cut(v).shell == Cut(w).shell
  {
  }

  lemma SameProvisioning(v: bv32, w: bv32)
    ensures SameUnder(v, w, PROVISIONING_MASK) <==> Cut(v).provisioning == Cut(w).provisioning
  {
  }

  lemma SameShellEpoch(v: bv32, w: bv32)
    ensures SameUnder(v, w, SHELL_EPOCH_MASK) <==> Cut(v).shellEpoch == Cut(w).shellEpoch
  {
  }

  lemma ByteValue(d: bv8, e: bv8)
    ensures d as nat == e as nat <==> d == e
  {
  }

  lemma FiveBitsValue(d: bv5, e: bv5)
    ensures d as nat == e as nat <==> d == e
  {
  }

  lemma OneCodeOneMeaning(d: bv2, e: bv2)
    ensures WifiOf(d) == WifiOf(e) <==> d == e
    ensures ProvisioningOf(d) == ProvisioningOf(e) <==> d == e
    ensures OtaOf(d) == OtaOf(e) <==> d == e
    ensures RouteOf(d) == RouteOf(e) <==> d == e
  {
  }

  // Different bits mean different things, field by field.
  lemma MeaningFaithful(b: Bits, c: Bits)
    ensures var f, g := Meaning(b), Meaning(c);
            && (f.usb == g.usb <==> b.usb == c.usb)
            && (f.initialized == g.initialized <==> b.initialized == c.initialized)
            && (f.shell == g.shell <==> b.shell == c.shell) && (f.wifi == g.wifi <==> b.wifi == c.wifi)
            && (f.provisioning == g.provisioning <==> b.provisioning == c.provisioning)
            && (f.ota == g.ota <==> b.ota == c.ota) && (f.route == g.route <==> b.route == c.route)
            && (f.usbOtaEpoch == g.usbOtaEpoch <==> b.usbOtaEpoch == c.usbOtaEpoch)
            && (f.wifiEpoch == g.wifiEpoch <==> b.wifiEpoch == c.wifiEpoch)
            && (f.shellEpoch == g.shellEpoch <==> b.shellEpoch == c.shellEpoch)
  {
    hide WifiOf;
    hide ProvisioningOf;
    hide OtaOf;
    hide RouteOf;
    OneCodeOneMeaning(b.wifi, c.wifi);
    OneCodeOneMeaning(b.provisioning, c.provisioning);
    OneCodeOneMeaning(b.ota, c.ota);
    OneCodeOneMeaning(b.route, c.route);
    ByteValue(b.usbOtaEpoch, c.usbOtaEpoch);
    ByteValue(b.wifiEpoch, c.wifiEpoch);
    FiveBitsValue(b.shellEpoch, c.shellEpoch);
  }

  lemma SameEverywhere(v: bv32, w: bv32)
    ensures SameUnder(v, w, Both(Both(WIRED, WIRELESS), OTHERS)) <==> v == w
  {
    assert Both(Both(WIRED, WIRELESS), OTHERS) == 0xFFFF_FFFF;
    assert v & 0xFFFF_FFFF == v && w & 0xFFFF_FFFF == w;
  }

  const WIRED := Both(Both(Both(USB_PRESENT, OTA_MASK), USB_OTA_EPOCH_MASK), ROUTE_MASK)
  const WIRELESS := Both(WIFI_MASK, WIFI_EPOCH_MASK)
  const OTHERS := Both(Both(Both(INITIALIZED, SHELL_ACTIVE), PROVISIONING_MASK), SHELL_EPOCH_MASK)

  lemma StampIsMask(w: bv32)
    ensures PolicyStamp(w, false) == Under(w, WIRED)
    ensures PolicyStamp(w, true) == Under(w, Both(WIRED, WIRELESS))
  {
  }

  lemma StampFields(v: bv32, w: bv32)
    ensures SameUnder(v, w, WIRED) <==> SamePolicyFields(Unpack(v), Unpack(w), false)
    ensures SameUnder(v, w, WIRELESS) <==>
            Unpack(v).wifi == Unpack(w).wifi && Unpack(v).wifiEpoch == Unpack(w).wifiEpoch
  {
    hide Cut;
    hide Meaning;
    MeaningFaithful(Cut(v), Cut(w));
    hide Under;
    hide Both;
    SameUnderBoth(v, w, Both(Both(USB_PRESENT, OTA_MASK), USB_OTA_EPOCH_MASK), ROUTE_MASK);
    SameUnderBoth(v, w, Both(USB_PRESENT, OTA_MASK), USB_OTA_EPOCH_MASK);
    SameUnderBoth(v, w, USB_PRESENT, OTA_MASK);
    SameUnderBoth(v, w, WIFI_MASK, WIFI_EPOCH_MASK);
    SameUsb(v, w);
    SameOta(v, w);
    SameUsbOtaEpoch(v, w);
    SameRoute(v, w);
    SameWifi(v, w);
    SameWifiEpoch(v, w);
  }

  lemma OtherFields(v: bv32, w: bv32)
    ensures SameUnder(v, w, OTHERS) <==>
            && Unpack(v).initialized == Unpack(w).initialized && Unpack(v).shell == Unpack(w).shell
            && Unpack(v).provisioning == Unpack(w).provisioning && Unpack(v).shellEpoch == Unpack(w).shellEpoch
  {
    hide Cut;
    hide Meaning;
    MeaningFaithful(Cut(v), Cut(w));
    hide Under;
    hide Both;
    SameUnderBoth(v, w, Both(Both(INITIALIZED, SHELL_ACTIVE), PROVISIONING_MASK), SHELL_EPOCH_MASK);
    SameUnderBoth(v, w, Both(INITIALIZED, SHELL_ACTIVE), PROVISIONING_MASK);
    SameUnderBoth(v, w, INITIALIZED, SHELL_ACTIVE);
    SameInitialized(v, w);
    SameShell(v, w);
    SameProvisioning(v, w);
    SameShellEpoch(v, w);
  }

  /** The ten fields are the whole word: comparing packed words compares records. */
  lemma UnpackInjective(v: bv32, w: bv32)
    ensures Unpack(v) == Unpack(w) <==> v == w
  {
    hide Unpack;
    hide Under;
    hide Both;
    StampFields(v, w);
    OtherFields(v, w);
    SameUnderBoth(v, w, WIRED, WIRELESS);
    SameUnderBoth(v, w, Both(WIRED, WIRELESS), OTHERS);
    SameEverywhere(v, w);
  }

  /** Equal stamps mean equal policy fields and equal epochs. */
  lemma StampFaithful(v: bv32, w: bv32, network: bool)
    ensures PolicyStamp(v, network) == PolicyStamp(w, network) <==>
            SamePolicyFields(Unpack(v), Unpack(w), network)
  {
    hide PolicyStamp;
    hide Unpack;
    hide Under;
    hide Both;
    StampIsMask(v);
    StampIsMask(w);
    StampFields(v, w);
    SameUnderBoth(v, w, WIRED, WIRELESS);
  }

  // ---------------------------------------------------------------- boot

  const BootFields := Fields(false, Stopped, ProvisioningIdle, Idle, true, 0, 0, false, 0, Auto)

  datatype Restored = RestoreOk(control: bv32) | RestoreInvalidState | RestoreStorageError

  // `restore_dap_route` with nothing else running yet; `loaded` is what storage answers.
  function RestoreRoute(w: bv32, loaded: Option<Route>): Restored {
    if w & !USB_OTA_EPOCH_MASK != INITIALIZED then RestoreInvalidState
    else match loaded
      case None => RestoreStorageError
      case Some(route) => RestoreOk(SetRoute(w, route))
  }

  lemma FreshWord(w: bv32)
    ensures w & !USB_OTA_EPOCH_MASK == INITIALIZED <==>
            Cut(w) == Bits(false, 0, 0, 0, true, Cut(w).usbOtaEpoch, 0, false, 0, 0)
  {
  }

  lemma FreshMeaning(b: Bits)
    ensures Meaning(b) == BootFields.(usbOtaEpoch := Meaning(b).usbOtaEpoch) <==>
            b == Bits(false, 0, 0, 0, true, b.usbOtaEpoch, 0, false, 0, 0)
  {
    hide WifiOf;
    hide ProvisioningOf;
    hide OtaOf;
    hide RouteOf;
    CodesMean(Stopped, ProvisioningIdle, Idle, Auto);
    OneCodeOneMeaning(b.wifi, 0);
    OneCodeOneMeaning(b.provisioning, 0);
    OneCodeOneMeaning(b.ota, 0);
    OneCodeOneMeaning(b.route, 0);
    ByteValue(b.wifiEpoch, 0);
    FiveBitsValue(b.shellEpoch, 0);
  }

  /** Restoring succeeds exactly on a fresh word, whose USB/OTA epoch may have moved, and sets the route alone. */
  lemma RestoreRouteSpec(w: bv32, loaded: Option<Route>)
    ensures var f := Unpack(w);
            match RestoreRoute(w, loaded)
            case RestoreOk(control) =>
              && f == BootFields.(usbOtaEpoch := f.usbOtaEpoch)
              && loaded.Some? && Unpack(control) == f.(route := loaded.value)
            case RestoreStorageError => f == BootFields.(usbOtaEpoch := f.usbOtaEpoch) && loaded.None?
            case RestoreInvalidState => f != BootFields.(usbOtaEpoch := f.usbOtaEpoch)
  {
    hide Cut;
    hide Meaning;
    hide SetRoute;
    FreshWord(w);
    FreshMeaning(Cut(w));
    if loaded.Some? {
      SetRouteFields(w, loaded.value);
    }
  }
}
