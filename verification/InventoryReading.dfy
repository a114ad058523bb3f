/** What a flat map of settings is read as, device by device and setting by setting, and when
    it is refused: in terms of the settings themselves. */
module InventoryReading {
  import opened Wrappers
  import opened Text
  import opened Numbers
  import opened ConfigSpec
  import opened InventoryProofs

  // ---------------------------------------------------------------- in terms of the settings

  /** The text of a setting; a missing one is blank. */
  function Said(v: Values, i: nat, s: Suffix): string { Trim(Get(v, Dev(i, s))) }

  /** The ID without one leading slash. */
  function SaidID(v: Values, i: nat): string { Unslashed(Said(v, i, ID)) }

  function Unslashed(text: string): string { if "/" <= text then text[1..] else text }

  predicate True(text: string) { text in {"1", "t", "T", "TRUE", "true", "True"} }
  predicate False(text: string) { text in {"0", "f", "F", "FALSE", "false", "False"} }

  predicate OverWiFi(v: Values, i: nat) {
    (Said(v, i, TYPE) == "android_phone" && Said(v, i, MODE) == "wifi") || Said(v, i, TYPE) == "redroid"
  }

  predicate Absent(v: Values, i: nat) { Said(v, i, TYPE) == "android_phone" && Said(v, i, MODE) == "no_device" }

  function PortOf(v: Values, i: nat): string {
    if Said(v, i, WIFI_PORT) == "" && OverWiFi(v, i) then "5555" else Said(v, i, WIFI_PORT)
  }

  /** Over WiFi host and port, with brackets around a host that contains a colon. */
  function SerialSaid(v: Values, i: nat): string {
    var ip := Said(v, i, WIFI_IP);
    if Absent(v, i) || (OverWiFi(v, i) && ip == "") then ""
    else if !OverWiFi(v, i) then Said(v, i, SERIAL)
    else if ':' in ip then "[" + ip + "]:" + PortOf(v, i)
    else ip + ":" + PortOf(v, i)
  }

  /** What a setting of the device is afterwards. */
  function Kept(v: Values, i: nat, s: Suffix): string {
    if s == ID then SaidID(v, i)
    else if s == AVD_NAME && Said(v, i, TYPE) == "android_emulator" && Said(v, i, BASE_NAME) != ""
           then Said(v, i, BASE_NAME)
    else if Absent(v, i) && (s == SERIAL || s == WIFI_IP || s == WIFI_PORT) then ""
    else if OverWiFi(v, i) && s == SERIAL then SerialSaid(v, i)
    else if OverWiFi(v, i) && s == WIFI_PORT then PortOf(v, i)
    else Said(v, i, s)
  }

  /** Every field of a device that was read. */
  ghost predicate IsRead(v: Values, i: nat, t: Target) {
    && t.index == i && t.id == SaidID(v, i) && t.name == Said(v, i, NAME) && t.description == Said(v, i, DESCRIPTION)
    && t.typ == Said(v, i, TYPE) && t.mode == Said(v, i, MODE)
    && (t.enabled <==> Said(v, i, ENABLED) == "" || True(Said(v, i, ENABLED)))
    && t.serial == SerialSaid(v, i)
    && t.wifiIP == (if Absent(v, i) then "" else Said(v, i, WIFI_IP))
    && t.wifiPort == (if Absent(v, i) then "" else PortOf(v, i))
    && forall s :: In(t.values, s) == Kept(v, i, s)
  }

  /** A device by itself is in order. */
  ghost predicate Readable(v: Values, rid: string, i: nat) {
    && (exists s :: Dev(i, s) in v) && Said(v, i, ID) != "" && rid + "/" <= SaidID(v, i)
    && (Said(v, i, ENABLED) == "" || True(Said(v, i, ENABLED)) || False(Said(v, i, ENABLED)))
    && forall k :: 0 <= k < |Said(v, i, SSH_KNOWN_HOSTS)| ==> !Space(Said(v, i, SSH_KNOWN_HOSTS)[k])
  }

  predicate SameText(v: Values, i: nat, j: nat, s: Suffix) { Said(v, i, s) != "" && Said(v, i, s) == Said(v, j, s) }

  predicate Addressed(v: Values, i: nat) {
    (Said(v, i, TYPE) == "android_phone" || Said(v, i, TYPE) == "redroid") && SerialSaid(v, i) != ""
  }

  /** Two devices that exclude each other. */
  predicate Excludes(v: Values, i: nat, j: nat) {
    || SaidID(v, i) == SaidID(v, j) || SameText(v, i, j, NAME)
    || SameText(v, i, j, PORT) || SameText(v, i, j, CONTAINER_NAME) || SameText(v, i, j, WORK_DIR)
    || (Addressed(v, i) && Addressed(v, j) && SerialSaid(v, i) == SerialSaid(v, j))
    || (Said(v, i, TYPE) == Said(v, j, TYPE)
        && (Said(v, i, TYPE) == "android_emulator" || Said(v, i, TYPE) == "ios_simulator"))
  }

  predicate Numbered(k: Key, n: nat) {
    !k.BareID? && !k.Malformed? && (k.Dev? ==> 1 <= k.index <= n && !k.suffix.Unlisted?)
  }

  // ---------------------------------------------------------------- one device

  lemma {:induction false} BlockSays(v: Values, i: nat, s: Suffix)
    ensures s in BlockOf(v, i) <==> Dev(i, s) in v
    ensures In(BlockOf(v, i), s) == Said(v, i, s) && Trim(Said(v, i, s)) == Said(v, i, s)
  {
    if Dev(i, s) in v { assert Dev(i, s).suffix in SuffixesOf(v, i); }
    TrimTrims("");
    TrimTwice(Get(v, Dev(i, s)));
  }

  lemma {:induction false} BlockIsEmpty(v: Values, i: nat)
    ensures BlockOf(v, i) == map[] <==> forall s :: Dev(i, s) !in v
  {
    hide BlockOf;
    forall s ensures s in BlockOf(v, i) <==> Dev(i, s) in v { BlockSays(v, i, s); }
    if BlockOf(v, i) != map[] { var s :| s in BlockOf(v, i); }
  }

  lemma {:induction false} AddressSaid(v: Values, i: nat)
    ensures AddressOf(BlockOf(v, i)) == Address(SerialSaid(v, i), if Absent(v, i) then "" else Said(v, i, WIFI_IP),
                                               if Absent(v, i) then "" else PortOf(v, i))
  {
    hide Trim, BlockOf, Said;
    forall s ensures In(BlockOf(v, i), s) == Said(v, i, s)
    && Trim(Said(v, i, s)) == Said(v, i, s) { BlockSays(v, i, s); }
    TrimTrims(DEFAULT_PORT);
    assert DEFAULT_PORT == "5555";
  }

  /** What settling does to one setting of a block. */
  lemma {:induction false} SettleIn(b: Block, id: string, s: Suffix)
    ensures In(Settle(b, id), s) ==
              if s == ID then id
              else if s == AVD_NAME && In(b, TYPE) == "android_emulator" && Trim(In(b, BASE_NAME)) != ""
                then Trim(In(b, BASE_NAME))
              else if In(b, TYPE) == "android_phone" && In(b, MODE) == "no_device"
                   && s in {SERIAL, WIFI_IP, WIFI_PORT} then ""
              else if ((In(b, TYPE) == "android_phone" && In(b, MODE) == "wifi") || In(b, TYPE) == "redroid")
                   && s == SERIAL
                then AddressOf(b).serial
              else if ((In(b, TYPE) == "android_phone" && In(b, MODE) == "wifi") || In(b, TYPE) == "redroid")
                   && s == WIFI_PORT
                then AddressOf(b).port
              else In(b, s)
  {
    hide Trim, AddressOf;
    SameAddress(b, id);
    NameIsNoAddress(b[ID := id], Trim(In(b, BASE_NAME)));
  }

  lemma {:induction false} SettledSays(v: Values, i: nat, s: Suffix)
    ensures In(Settle(BlockOf(v, i), SaidID(v, i)), s) == Kept(v, i, s)
  {
    hide Trim, BlockOf, Said, AddressOf, SerialSaid, SaidID, Settle;
    BlockSays(v, i, s);
    BlockSays(v, i, TYPE);
    BlockSays(v, i, MODE);
    BlockSays(v, i, BASE_NAME);
    AddressSaid(v, i);
    SettleIn(BlockOf(v, i), SaidID(v, i), s);
  }

  lemma SameAddress(b: Block, id: string)
    ensures AddressOf(b[ID := id]) == AddressOf(b)
  {
  }

  lemma NameIsNoAddress(b: Block, name: string)
    ensures AddressOf(b[AVD_NAME := name]) == AddressOf(b)
  {
  }

  /** A device is read exactly if it is in order, and then field by field as its settings say. */
  lemma {:induction false} DeviceRead(v: Values, rid: string, i: nat)
    ensures ReadTarget(rid, i, BlockOf(v, i)).Some? <==> Readable(v, rid, i)
    ensures ReadTarget(rid, i, BlockOf(v, i)).Some? ==> IsRead(v, i, ReadTarget(rid, i, BlockOf(v, i)).value)
  {
    hide Trim, BlockOf, Said, AddressOf, SerialSaid, Settle, Kept;
    var b := BlockOf(v, i);
    forall s ensures In(b, s) == Said(v, i, s) && Trim(Said(v, i, s)) == Said(v, i, s) { BlockSays(v, i, s); }
    BlockIsEmpty(v, i);
    AddressSaid(v, i);
    forall s ensures In(Settle(b, SaidID(v, i)), s) == Kept(v, i, s) { SettledSays(v, i, s); }
    assert CanonicalID(In(b, ID)) == SaidID(v, i);
  }

  // ---------------------------------------------------------------- the whole inventory

  lemma {:induction false} AllRead(v: Values, rid: string, n: nat)
    ensures ReadTargets(rid, v, n).Some? <==> forall i :: 1 <= i <= n ==> Readable(v, rid, i)
    ensures ReadTargets(rid, v, n).Some? ==>
        forall i :: 0 <= i < n ==> IsRead(v, i + 1, ReadTargets(rid, v, n).value[i])
  {
    hide ReadTarget, BlockOf, Readable, IsRead;
    if n > 0 {
      AllRead(v, rid, n - 1);
      DeviceRead(v, rid, n);
    }
  }

  lemma {:induction false} ClashesExactly(v: Values, i: nat, t: Target, j: nat, u: Target)
    requires IsRead(v, i, t) && IsRead(v, j, u)
    ensures Clash(t, u) <==> Excludes(v, i, j)
  {
    hide Trim, Said, SerialSaid, SaidID, IsRead;
    ReadSays(v, i, t);
    ReadSays(v, j, u);
  }

  /** What of a device decides about clashes. */
  lemma {:induction false} ReadSays(v: Values, i: nat, t: Target)
    requires IsRead(v, i, t)
    ensures t.id == SaidID(v, i) && t.name == Said(v, i, NAME) && t.typ == Said(v, i, TYPE)
            && t.serial == SerialSaid(v, i)
    ensures In(t.values, PORT) == Said(v, i, PORT) && In(t.values, CONTAINER_NAME) == Said(v, i, CONTAINER_NAME)
    ensures In(t.values, WORK_DIR) == Said(v, i, WORK_DIR)
    ensures forall s :: Trim(Said(v, i, s)) == Said(v, i, s)
  {
    hide Trim, Said, SerialSaid, SaidID;
    forall s ensures Trim(Said(v, i, s)) == Said(v, i, s) { BlockSays(v, i, s); }
    assert Kept(v, i, PORT) == Said(v, i, PORT) && Kept(v, i, WORK_DIR) == Said(v, i, WORK_DIR);
    assert Kept(v, i, CONTAINER_NAME) == Said(v, i, CONTAINER_NAME);
  }

  /** For every map of settings: an inventory is accepted exactly if the count is positive, the
      runner has an ID, every device setting is known and numbered within the count, every
      device is in order and no two exclude each other. */
  lemma {:induction false} AcceptedExactly(v: Values)
    ensures var rid := Unslashed(Trim(Get(v, Host(KRunner(SRunnerID))))); var count := ReadInt(Trim(Get(v, Count)));
            ReadInventory(v).Some? <==>
              && count.Some? && count.value >= 1 && rid != ""
              && (forall k :: k in v ==> Numbered(k, count.value))
              && (forall i :: 1 <= i <= count.value ==> Readable(v, rid, i))
              && (forall i, j :: 1 <= i < j <= count.value ==> !Excludes(v, i, j))
  {
    hide Trim, ReadInt, ReadTargets, Readable, IsRead, Excludes, Clash;
    var rid := Unslashed(Trim(Get(v, Host(KRunner(SRunnerID)))));
    var count := ReadInt(Trim(Get(v, Count)));
    if count.Some? && count.value >= 1 {
      var n := count.value;
      AllRead(v, rid, n);
      forall k: Key ensures KeyAllowed(k, n) <==> Numbered(k, n) { }
      if ReadTargets(rid, v, n).Some? { CompatibleExactly(v, ReadTargets(rid, v, n).value); }
    }
  }

  lemma {:induction false} CompatibleExactly(v: Values, ts: seq<Target>)
    requires forall i :: 0 <= i < |ts| ==> IsRead(v, i + 1, ts[i])
    ensures Compatible(ts) <==> forall i, j :: 1 <= i < j <= |ts| ==> !Excludes(v, i, j)
  {
    hide IsRead, Excludes, Clash;
    forall i, j | 0 <= i < j < |ts| ensures Clash(ts[i], ts[j]) <==> Excludes(v, i + 1, j + 1) {
      ClashesExactly(v, i + 1, ts[i], j + 1, ts[j]);
    }
    if Compatible(ts) {
      forall i, j | 1 <= i < j <= |ts| ensures !Excludes(v, i, j) {
        assert !Clash(ts[i - 1], ts[j - 1]);
      }
    }
  }

  /** And what it holds: the runner's ID and every field of every device. */
  lemma {:induction false} FieldByField(v: Values)
    requires ReadInventory(v).Some?
    ensures var inv := ReadInventory(v).value;
            && inv.runnerID == Unslashed(Trim(Get(v, Host(KRunner(SRunnerID)))))
            && ReadInt(Trim(Get(v, Count))) == Some(|inv.targets|)
            && forall i :: 0 <= i < |inv.targets| ==> IsRead(v, i + 1, inv.targets[i])
  {
    hide Trim, ReadInt, ReadTargets, Readable, IsRead, Clash, KeyAllowed;
    CountIs(v);
    AllRead(v, ReadInventory(v).value.runnerID, |ReadInventory(v).value.targets|);
  }

  /** A device of which only the ID is given is enabled, and blank otherwise. */
  lemma {:induction false} IDAloneIsEnough(v: Values, i: nat)
    requires ReadInventory(v).Some? && 1 <= i <= |ReadInventory(v).value.targets|
    requires forall s :: Dev(i, s) in v ==> s == ID
    ensures var t := ReadInventory(v).value.targets[i - 1];
            && t.enabled && t.name == "" && t.description == "" && t.typ == "" && t.mode == ""
            && t.serial == "" && t.wifiIP == "" && t.wifiPort == ""
  {
    hide ReadInventory, Trim, SaidID;
    FieldByField(v);
    forall s | s != ID ensures Said(v, i, s) == "" { TrimTrims(""); }
    assert IsRead(v, i, ReadInventory(v).value.targets[i - 1]);
  }
}
