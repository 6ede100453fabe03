/** The device-kind, battery-technology and icon lookup tables of the power
    manager. Each is a switch with a default branch: total, and never
    without a name. The numeric values of upower's device kinds are not part
    of this model, so the kinds are an enumeration; `Unlisted` stands for any
    kind the switches have no case for. Translation (`_()`) is the identity. */
module PowerCommon {
  import opened Optional

  datatype DeviceKind =
    | Unknown
    | LinePower
    | Battery
    | Ups
    | Monitor
    | Mouse
    | Keyboard
    | Pda
    | Phone
    | MediaPlayer
    | Tablet
    | Computer
    | Unlisted(code: nat)

  /** Every name the device-type table can give. */
  const DeviceTypeNames: set<string> :=
    {"Battery", "UPS", "Line power", "Mouse", "Keyboard", "Monitor", "PDA",
     "Phone", "Tablet", "Computer", "Unknown"}

  /** The kinds the device-type switch has a case for. */
  predicate HasDeviceTypeCase(kind: DeviceKind)
  {
    !kind.MediaPlayer? && !kind.Unlisted?
  }

  /** Human-readable name of a device kind; kinds without a case read as "Battery". */
  function TranslateDeviceType(kind: DeviceKind): (name: string)
    ensures name in DeviceTypeNames
    ensures |name| > 0
  {
    match kind
    case Battery => "Battery"
    case Ups => "UPS"
    case LinePower => "Line power"
    case Mouse => "Mouse"
    case Keyboard => "Keyboard"
    case Monitor => "Monitor"
    case Pda => "PDA"
    case Phone => "Phone"
    case Tablet => "Tablet"
    case Computer => "Computer"
    case Unknown => "Unknown"
    case _ => "Battery"
  }

  /** Reverse lookup of the device-type table: the kind a name stands for. */
  function DeviceKindOfName(name: string): Option<DeviceKind>
  {
    if name == "Battery" then Some(Battery)
    else if name == "UPS" then Some(Ups)
    else if name == "Line power" then Some(LinePower)
    else if name == "Mouse" then Some(Mouse)
    else if name == "Keyboard" then Some(Keyboard)
    else if name == "Monitor" then Some(Monitor)
    else if name == "PDA" then Some(Pda)
    else if name == "Phone" then Some(Phone)
    else if name == "Tablet" then Some(Tablet)
    else if name == "Computer" then Some(Computer)
    else if name == "Unknown" then Some(Unknown)
    else None
  }

  /** Each kind with a case gets a name of its own: the name gives the kind back. */
  lemma DeviceTypeNameIdentifiesKind(kind: DeviceKind)
    requires HasDeviceTypeCase(kind)
    ensures DeviceKindOfName(TranslateDeviceType(kind)) == Some(kind)
  {
  }

  /** "Battery" is both the battery's own name and the default: it is given
      exactly to the battery kind and to the kinds without a case, the media
      player among them. */
  lemma DeviceTypeFallback(kind: DeviceKind)
    ensures TranslateDeviceType(kind) == "Battery" <==> kind == Battery || !HasDeviceTypeCase(kind)
  {
  }

  /** The seven technology names, indexed by upower's technology value. */
  const TechnologyNames: seq<string> :=
    ["Unknown", "Lithium ion", "Lithium polymer", "Lithium iron phosphate",
     "Lead acid", "Nickel cadmium", "Nickel metal hybride"]

  /** Human-readable name of a battery technology; out-of-range values read as "Unknown". */
  function TranslateTechnology(value: nat): (name: string)
    ensures name in TechnologyNames
    ensures value < |TechnologyNames| ==> name == TechnologyNames[value]
  {
    if value == 0 then "Unknown"
    else if value == 1 then "Lithium ion"
    else if value == 2 then "Lithium polymer"
    else if value == 3 then "Lithium iron phosphate"
    else if value == 4 then "Lead acid"
    else if value == 5 then "Nickel cadmium"
    else if value == 6 then "Nickel metal hybride"
    else "Unknown"
  }

  /** Reverse lookup of the technology table; names not in it give 0. */
  function TechnologyOfName(name: string): nat
  {
    if name == "Lithium ion" then 1
    else if name == "Lithium polymer" then 2
    else if name == "Lithium iron phosphate" then 3
    else if name == "Lead acid" then 4
    else if name == "Nickel cadmium" then 5
    else if name == "Nickel metal hybride" then 6
    else 0
  }

  /** "Unknown" is given to value 0 and to every value past the table, and to nothing else. */
  lemma TechnologyUnknown(value: nat)
    ensures TranslateTechnology(value) == "Unknown" <==> value == 0 || value > 6
  {
  }

  /** The name gives back the value for 0..6, and 0 ("Unknown") for every other value. */
  lemma TechnologyRoundTrip(value: nat)
    ensures TechnologyOfName(TranslateTechnology(value)) == if value <= 6 then value else 0
  {
  }

  /** The icon names. The values of the XFPM_*_ICON macros are not part of
      this model, so each is a constant of its own; `ThemeIcon` is an icon
      named by a literal in the table itself. */
  datatype Icon =
    | BatteryIcon
    | UpsIcon
    | AcAdapterIcon
    | MouseIcon
    | KbdIcon
    | PdaIcon
    | PhoneIcon
    | ThemeIcon(name: string)

  /** The icon shown for a device kind; kinds without a case get the battery icon. */
  function GetIconName(kind: DeviceKind): (icon: Icon)
    ensures icon.ThemeIcon? ==> icon.name == "monitor"
  {
    match kind
    case Battery => BatteryIcon
    case Ups => UpsIcon
    case LinePower => AcAdapterIcon
    case Mouse => MouseIcon
    case Keyboard => KbdIcon
    case Monitor => ThemeIcon("monitor")
    case Computer => ThemeIcon("monitor")
    case Pda => PdaIcon
    case Phone => PhoneIcon
    case Tablet => PhoneIcon
    case MediaPlayer => PhoneIcon
    case Unknown => BatteryIcon
    case Unlisted(_) => BatteryIcon
  }

  /** Monitors and computers, and only they, share the "monitor" icon. */
  lemma MonitorIconKinds(kind: DeviceKind)
    ensures GetIconName(kind) == ThemeIcon("monitor") <==> kind == Monitor || kind == Computer
  {
  }

  /** Phones, tablets and media players, and only they, share the phone icon. */
  lemma PhoneIconKinds(kind: DeviceKind)
    ensures GetIconName(kind) == PhoneIcon <==> kind == Phone || kind == Tablet || kind == MediaPlayer
  {
  }

  /** The battery icon goes to batteries, to the unknown kind and to every kind without a case. */
  lemma BatteryIconKinds(kind: DeviceKind)
    ensures GetIconName(kind) == BatteryIcon <==> kind == Battery || kind == Unknown || kind.Unlisted?
  {
  }
}
