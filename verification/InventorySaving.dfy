/** What saving an inventory writes, setting by setting. */
module InventorySaving {
  import opened Wrappers
  import opened Text
  import opened Numbers
  import opened ConfigSpec
  import opened InventoryProofs
  import opened InventoryResave

  /** The device is reached over the network. */
  predicate Reached(t: Target) { t.typ == "redroid" || (t.typ == "android_phone" && t.mode == "wifi") }

  function PortSaved(t: Target): string { if Trim(t.wifiPort) == "" then "5555" else Trim(t.wifiPort) }

  /** Host and port, with brackets around a host that contains a colon. */
  function SerialSaved(t: Target): string {
    var ip := Trim(t.wifiIP);
    if ip == "" then "" else if ':' in ip then "[" + ip + "]:" + PortSaved(t) else ip + ":" + PortSaved(t)
  }

  predicate Plugged(t: Target) { t.typ == "android_phone" && t.mode == "usb" && Trim(t.serial) != "" }

  predicate Based(t: Target) { t.typ == "android_emulator" && TextIn(t, BASE_NAME) != "" }

  function TextIn(t: Target, s: Suffix): string { if s in t.values then Trim(t.values[s]) else "" }

  /** The path to the known hosts: the machine's for an SSH target that names none. */
  function PathSaved(p: Platform, t: Target): string {
    if TextIn(t, SSH_KNOWN_HOSTS) == "" && TextIn(t, SSH_TARGET) != "" then p.knownHosts else TextIn(t, SSH_KNOWN_HOSTS)
  }

  /** The text that is saved for a setting; none if it is left out. */
  function Saved(p: Platform, t: Target, s: Suffix): Option<string> {
    match s
    case ID => Some(t.id)
    case NAME => Some(t.name)
    case DESCRIPTION => Some(t.description)
    case TYPE => Some(t.typ)
    case MODE => Some(t.mode)
    case ENABLED => Some(if t.enabled then "true" else "false")
    case SERIAL => if Reached(t) then Some(SerialSaved(t)) else if Plugged(t) then Some(Trim(t.serial)) else None
    case WIFI_IP => if Reached(t) then Some(Trim(t.wifiIP)) else None
    case WIFI_PORT => if Reached(t) then Some(PortSaved(t)) else None
    case AVD_NAME => if Based(t) then Some(TextIn(t, BASE_NAME)) else None
    case BASE_NAME => if Based(t) then Some(TextIn(t, BASE_NAME)) else Untouched(t, s)
    case SSH_KNOWN_HOSTS => if t.typ == "redroid" then Some(PathSaved(p, t)) else Untouched(t, s)
    case SSH_ARGS =>
      if t.typ != "redroid" then Untouched(t, s)
      else if Trim(PathSaved(p, t)) == "" then Some("") else Some("-o UserKnownHostsFile=" + Trim(PathSaved(p, t)))
    case _ => Untouched(t, s)
  }

  function Untouched(t: Target, s: Suffix): Option<string> { if s in t.values then Some(t.values[s]) else None }

  lemma {:induction false} SerialExactly(t: Target)
    ensures WiFiSerial(t.wifiIP, PortSaved(t)) == SerialSaved(t)
    ensures FilledPort(t.wifiPort) == PortSaved(t)
  {
    hide Trim;
    TrimTrims("5555");
    TrimTwice(t.wifiPort);
  }

  lemma {:induction false} PathExactly(p: Platform, t: Target)
    ensures PathOf(p, t) == PathSaved(p, t)
  {
    hide Trim;
    TrimTrims("");
  }

  /** The settings that every device has, and those that are left as they were. */
  function Common(t: Target, s: Suffix): Option<string> {
    match s
    case ID => Some(t.id)
    case NAME => Some(t.name)
    case DESCRIPTION => Some(t.description)
    case TYPE => Some(t.typ)
    case MODE => Some(t.mode)
    case ENABLED => Some(if t.enabled then "true" else "false")
    case SERIAL => None
    case WIFI_IP => None
    case WIFI_PORT => None
    case AVD_NAME => None
    case _ => Untouched(t, s)
  }

  ghost predicate Holds(b: Block, s: Suffix,
                        text: Option<string>) { (s in b <==> text.Some?) && (s in b ==> text == Some(b[s])) }

  lemma {:induction false} BaseExactly(t: Target, s: Suffix)
    ensures Holds(Base(t), s, Common(t, s))
  {
  }

  lemma {:induction false} RedroidExactly(p: Platform, t: Target, s: Suffix)
    requires t.typ == "redroid"
    ensures Holds(Rewrite(p, t), s, Saved(p, t, s))
  {
    hide Trim, WiFiSerial, PathOf, PathSaved, PortSaved, SerialSaved, FilledPort, Base;
    SerialExactly(t);
    PathExactly(p, t);
    BaseExactly(t, s);
  }

  lemma {:induction false} WiFiExactly(p: Platform, t: Target, s: Suffix)
    requires t.typ == "android_phone" && t.mode == "wifi"
    ensures Holds(Rewrite(p, t), s, Saved(p, t, s))
  {
    hide Trim, WiFiSerial, PathOf, PathSaved, PortSaved, SerialSaved, FilledPort, Base;
    SerialExactly(t);
    BaseExactly(t, s);
  }

  lemma {:induction false} BasedExactly(p: Platform, t: Target, s: Suffix)
    requires !Reached(t)
    ensures Holds(Rewrite(p, t), s, Saved(p, t, s))
  {
    hide Trim, WiFiSerial, PathOf, PathSaved, PortSaved, SerialSaved, FilledPort, Base;
    assert Trim("") == "" by { TrimTrims(""); }
    BaseExactly(t, s);
  }

  lemma {:induction false} BlockExactly(p: Platform, t: Target, s: Suffix)
    ensures Holds(Rewrite(p, t), s, Saved(p, t, s))
  {
    hide Rewrite, Saved;
    if t.typ == "redroid" { RedroidExactly(p, t, s); }
    else if Reached(t) { WiFiExactly(p, t, s); }
    else { BasedExactly(p, t, s); }
  }

  /** The whole map that is saved: host settings with defaults for the blank ones, the count, and the settings of every
      device under its number. */
  lemma {:induction false} SavedExactly(p: Platform, defaults: Values, host: Values, ts: seq<Target>, k: Key)
    ensures var v := Resave(p, defaults, host, ts);
            match k
            case Host(_) =>
              && (k in v <==> k in host || k in defaults)
              && (k in v ==> v[k] == if k in defaults && (k !in host || Trim(host[k]) == "") then defaults[k]
                  else host[k])
            case Count => k in v && v[k] == ShowNat(|ts|)
            case Dev(i, s) =>
              && (k in v <==> 1 <= i <= |ts| && Saved(p, ts[i - 1], s).Some?)
              && (k in v ==> Saved(p, ts[i - 1], s) == Some(v[k]))
            case _ => k !in v
  {
    hide Trim, Rewrite, PutTargets, Saved;
    var filled := FillDefaults(host, defaults);
    assert forall x :: x in filled ==> x.Host? by { FillHosts(host, defaults); }
    PutTargetsKeys(p, filled[Count := ShowNat(|ts|)], ts, k);
    assert Trim("") == "" by { TrimTrims(""); }
    if k.Dev? && 1 <= k.index <= |ts| { BlockExactly(p, ts[k.index - 1], k.suffix); }
  }
}
