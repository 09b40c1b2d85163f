// Ownership of GPIO descriptors, clocks, LEDs and regulators in the INT3472
// driver (dkms/int3472-surface/{discrete,clk_and_regulator,led}.c), from probe
// through a failure or to remove.
module Int3472 {
  import opened Wrappers

  datatype Kind =
    | Reset | Powerdown | HotplugDetect
    | ClkEnable | PrivacyLed | PowerEnable | Power1 | Handshake
    | Unknown

  // A resource of _CRS, and the _DSM entry of a pin.
  datatype Resource = Other | Pin(path: string, line: int)
  datatype Dsm = Dsm(kind: Kind, onValue: int)

  datatype Lookup = Null | Entry(path: string, line: int, conId: string, activeLow: bool)
  datatype Regulator = Regulator(gpio: int, supplies: seq<(string, string)>)
  datatype Led = Led(gpio: int)
  datatype LedDev = NoDev | ErrDev | LiveDev

  const REGULATOR_SUPPLY_MAP_COUNT: nat := 2
  const SUPPLY_NAME_LENGTH: nat := 5

  // What can be held, and has to be given back once.
  datatype Token = Gpio(d: int) | Clk | ClkDev | LedClass(k: nat) | LedLookup(k: nat) | Rdev(k: nat) | Table

  // ------------------------------------------------------- what a pin is for

  datatype Use = Use(kind: Kind, conId: string, activeLow: bool)

  // What one type of pin means for one sensor, where that differs from the rest.
  datatype Row = Row(hid: string, from: Kind, use: Use)

  const GPIO_MAP: seq<Row> := [
    Row("INT33F0", Powerdown, Use(PowerEnable, "vdd", false)),
    Row("INT347E", Reset, Use(Reset, "enable", false)),
    Row("INT347E", PowerEnable, Use(PowerEnable, "vdda", false)),
    Row("OVTI08F4", Handshake, Use(Handshake, "dvdd", false))]

  predicate Matches(row: Row, hid: string, kind: Kind) {
    row.from == kind && row.hid == hid
  }

  // int3472_get_con_id_and_polarity: the first matching row of the map, or what
  // the type means for any sensor.
  method GetConIdAndPolarity(hid: string, kind: Kind, power1: string) returns (use: Use)
    ensures use == UseOf(hid, kind, power1)
    ensures forall i :: 0 <= i < |GPIO_MAP| && Matches(GPIO_MAP[i], hid, kind) ==> use == GPIO_MAP[i].use
    ensures (forall i :: 0 <= i < |GPIO_MAP| ==> !Matches(GPIO_MAP[i], hid, kind)) ==> use == DefaultUse(kind, power1)
  {
    var i := 0;
    while i < |GPIO_MAP|
      invariant 0 <= i <= |GPIO_MAP|
      invariant forall j :: 0 <= j < i ==> !Matches(GPIO_MAP[j], hid, kind)
    {
      if GPIO_MAP[i].from == kind && GPIO_MAP[i].hid == hid {
        use := GPIO_MAP[i].use;
        RowDecides(i, hid, kind, power1);
        return;
      }
      i := i + 1;
    }
    use := DefaultUse(kind, power1);
    assert !Matches(GPIO_MAP[0], hid, kind) && !Matches(GPIO_MAP[1], hid, kind);
    assert !Matches(GPIO_MAP[2], hid, kind) && !Matches(GPIO_MAP[3], hid, kind);
  }

  lemma RowDecides(i: nat, hid: string, kind: Kind, power1: string)
    requires i < |GPIO_MAP| && Matches(GPIO_MAP[i], hid, kind)
    ensures UseOf(hid, kind, power1) == GPIO_MAP[i].use
    ensures forall j :: 0 <= j < |GPIO_MAP| && Matches(GPIO_MAP[j], hid, kind) ==> j == i
  {
  }

  function DefaultUse(kind: Kind, power1: string): Use {
    match kind
    case Reset => Use(Reset, "reset", true)
    case Powerdown => Use(Powerdown, "powerdown", true)
    case ClkEnable => Use(ClkEnable, "clk-enable", false)
    case PrivacyLed => Use(PrivacyLed, "privacy-led", false)
    case HotplugDetect => Use(HotplugDetect, "hpd", false)
    case PowerEnable => Use(PowerEnable, "avdd", false)
    case Power1 => Use(Power1, power1, false)
    case Handshake => Use(Handshake, "dvdd", false)
    case Unknown => Use(Unknown, "unknown", false)
  }

  function UseOf(hid: string, kind: Kind, power1: string): Use {
    if kind == Powerdown && hid == "INT33F0" then Use(PowerEnable, "vdd", false)
    else if kind == Reset && hid == "INT347E" then Use(Reset, "enable", false)
    else if kind == PowerEnable && hid == "INT347E" then Use(PowerEnable, "vdda", false)
    else if kind == Handshake && hid == "OVTI08F4" then Use(Handshake, "dvdd", false)
    else DefaultUse(kind, power1)
  }

  // Only a powerdown pin of an INT33F0 changes its type; active low are the reset
  // and powerdown pins nobody renames; a type has its own name but for the two
  // that share "dvdd".
  lemma UsesTold(hid: string, kind: Kind, power1: string)
    ensures var u := UseOf(hid, kind, power1);
            && (u.kind != kind <==> kind == Powerdown && hid == "INT33F0")
            && (u.activeLow <==> u.conId in {"reset", "powerdown"} && u.kind in {Reset, Powerdown})
            && (kind == PowerEnable ==> u.conId == if hid == "INT347E" then "vdda" else "avdd")
            && (kind == Reset ==> u.conId == if hid == "INT347E" then "enable" else "reset")
            && (kind == Handshake ==> u.conId == "dvdd") && (kind == Power1 ==> u.conId == power1)
            && (u.kind == PowerEnable && hid == "INT33F0" && kind == Powerdown ==> u.conId == "vdd")
  {
    assert |"reset"| == 5 && |"powerdown"| == 9 && |"enable"| == 6;
  }

  // Every type has one part to play.
  lemma OnePartEach(kind: Kind)
    ensures (if ForSensor(kind) then 1 else 0) + (if ForRegulator(kind) then 1 else 0)
            + (if kind in {ClkEnable, PrivacyLed, Unknown} then 1 else 0) == 1
  {
  }

  predicate ForSensor(kind: Kind) {
    kind.Reset? || kind.Powerdown? || kind.HotplugDetect?
  }

  predicate ForRegulator(kind: Kind) {
    kind.PowerEnable? || kind.Power1? || kind.Handshake?
  }

  // Only a POWER1 pin, whose supply name is a module parameter, can have a name
  // too long for a supply.
  lemma OnlyPower1CanBeTooLong(hid: string, kind: Kind, power1: string)
    requires ForRegulator(UseOf(hid, kind, power1).kind) && UseOf(hid, kind, power1).kind != Power1
    ensures |UseOf(hid, kind, power1).conId| < SUPPLY_NAME_LENGTH
  {
  }

  function Upper(s: string): (t: string)
    ensures |t| == |s|
    ensures forall i :: 0 <= i < |s| ==> t[i] == if 'a' <= s[i] <= 'z' then s[i] - 'a' + 'A' else s[i]
  {
    if s == "" then ""
    else [if 'a' <= s[0] <= 'z' then s[0] - 'a' + 'A' else s[0]] + Upper(s[1..])
  }

  // Lower case then upper case, each for the sensor and then for a second one.
  function Supplies(name: string, sensor: string, second: Option<string>): seq<(string, string)> {
    if second.Some? then
      [(name, sensor), (name, second.value), (Upper(name), sensor), (Upper(name), second.value)]
    else
      [(name, sensor), (Upper(name), sensor)]
  }

  // ---------------------------------------------------- the platform's tables

  // The firmware and the module parameters; the limits are those of a kernel
  // header.
  datatype Platform = Platform(
    hid: string, sensor: string, second: Option<string>, power1: string, dsm: map<nat, Dsm>,
    ledArray: bool, maxSensor: nat, maxRegulators: nat, maxLeds: nat,
    dsmClock: bool,       // _DSM controls a clock
    registerKeeps: bool)  // a failing regulator_register leaves the enable GPIO with its caller

  // The pins the walk gives a meaning: the i-th pin takes the i-th _DSM entry,
  // up to the first one missing.
  function Uses(p: Platform, resources: seq<Resource>, n: nat): seq<(Resource, Use)> {
    if resources == [] then []
    else if resources[0].Pin? && n + 2 in p.dsm then
      [(resources[0], Meaning(p, p.dsm[n + 2]))] + Uses(p, resources[1..], n + 1)
    else Uses(p, resources[1..], n)
  }

  function Meaning(p: Platform, d: Dsm): Use {
    var u := UseOf(p.hid, d.kind, p.power1);
    if d.onValue == 0 then u.(activeLow := !u.activeLow) else u
  }

  // The polarity is the type's own, turned round when the on-value is zero; only
  // the power-enable rail is supplied to a second sensor.
  lemma MeaningTold(p: Platform, d: Dsm)
    ensures var u, m := UseOf(p.hid, d.kind, p.power1), Meaning(p, d);
            && m.kind == u.kind && m.conId == u.conId
            && (m.activeLow == u.activeLow <==> d.onValue != 0)
            && (SecondFor(p, m.kind).Some? <==> m.kind == PowerEnable && p.second.Some?)
            && (SecondFor(p, m.kind).Some? ==> SecondFor(p, m.kind) == p.second)
  {
  }

  function Pins(resources: seq<Resource>): seq<Resource> {
    if resources == [] then []
    else (if resources[0].Pin? then [resources[0]] else []) + Pins(resources[1..])
  }

  // The i-th use is that of the i-th pin.
  ghost predicate UseAt(p: Platform, u: seq<(Resource, Use)>, pins: seq<Resource>, n: nat, i: nat)
    requires i < |u| && i < |pins|
  {
    n + i + 2 in p.dsm && u[i] == (pins[i], Meaning(p, p.dsm[n + i + 2]))
  }

  ghost predicate Aligned(p: Platform, u: seq<(Resource, Use)>, pins: seq<Resource>, n: nat) {
    && |u| <= |pins|
    && (forall i: nat :: i < |u| ==> UseAt(p, u, pins, n, i))
    && (|u| < |pins| ==> n + |u| + 2 !in p.dsm)
  }

  // One missing _DSM entry hides every later pin, entries or not.
  lemma {:induction false} OneGapHidesTheRest(p: Platform, resources: seq<Resource>, n: nat)
    ensures Aligned(p, Uses(p, resources, n), Pins(resources), n)
  {
    if resources != [] {
      var r, rest := resources[0], resources[1..];
      if r.Pin? && n + 2 in p.dsm {
        OneGapHidesTheRest(p, rest, n + 1);
        AlignedCons(p, r, Uses(p, rest, n + 1), Pins(rest), n);
      } else {
        OneGapHidesTheRest(p, rest, n);
        assert r.Other? ==> Pins(resources) == Pins(rest);
        assert Uses(p, rest, n) != [] ==> UseAt(p, Uses(p, rest, n), Pins(rest), n, 0);
      }
    }
  }

  lemma AlignedCons(p: Platform, r: Resource, u: seq<(Resource, Use)>, pins: seq<Resource>, n: nat)
    requires n + 2 in p.dsm && Aligned(p, u, pins, n + 1)
    ensures Aligned(p, [(r, Meaning(p, p.dsm[n + 2]))] + u, [r] + pins, n)
  {
    var v, q := [(r, Meaning(p, p.dsm[n + 2]))] + u, [r] + pins;
    forall i: nat | i < |v|
      ensures UseAt(p, v, q, n, i)
    {
      if i > 0 {
        assert UseAt(p, u, pins, n + 1, i - 1);
      }
    }
  }

  lemma {:induction false} UsesGrow(p: Platform, resources: seq<Resource>, r: Resource, n: nat)
    ensures Uses(p, resources + [r], n) == Uses(p, resources, n) + Taken(p, r, n + |Uses(p, resources, n)|)
  {
    assert [r][1..] == [];
    if resources == [] {
      assert resources + [r] == [r];
    } else {
      assert (resources + [r])[1..] == resources[1..] + [r];
      if resources[0].Pin? && n + 2 in p.dsm {
        UsesGrow(p, resources[1..], r, n + 1);
      } else {
        UsesGrow(p, resources[1..], r, n);
      }
    }
  }

  // Whether there is no place for a use behind so many of each kind: sensor
  // entries, clocks, LEDs and regulators, whose names have to be short too.
  predicate FullFor(p: Platform, sensors: nat, clocks: nat, leds: nat, regulators: nat, u: Use) {
    if ForSensor(u.kind) then sensors >= p.maxSensor
    else
      match u.kind
      case Unknown => false
      case ClkEnable => clocks >= 1
      case PrivacyLed => leds >= if p.ledArray then p.maxLeds else 1
      case _ => regulators >= p.maxRegulators || |u.conId| >= SUPPLY_NAME_LENGTH
  }

  function Of(uses: seq<(Resource, Use)>, kind: Kind): nat {
    if uses == [] then 0
    else Of(uses[..|uses| - 1], kind) + if uses[|uses| - 1].1.kind == kind then 1 else 0
  }

  ghost predicate RoomFor(p: Platform, uses: seq<(Resource, Use)>, u: Use) {
    !FullFor(p, |Entries(uses)|, Of(uses, ClkEnable), Of(uses, PrivacyLed), |SupplyMaps(p, uses)|, u)
  }

  ghost predicate RoomForAll(p: Platform, uses: seq<(Resource, Use)>) {
    uses == [] || (RoomForAll(p, uses[..|uses| - 1]) && RoomFor(p, uses[..|uses| - 1], uses[|uses| - 1].1))
  }

  lemma RoomGrows(p: Platform, uses: seq<(Resource, Use)>, r: Resource, n: nat)
    ensures var t := Taken(p, r, n);
            && (RoomForAll(p, uses + t) <==> RoomForAll(p, uses) && forall i :: 0 <= i < |t| ==> RoomFor(p, uses, t[i].1))
            && forall kind :: Of(uses + t, kind) == Of(uses, kind) + Of(t, kind)
  {
    hide RoomFor;
    var t := Taken(p, r, n);
    if t == [] {
      assert uses + t == uses;
    } else {
      assert (uses + t)[..|uses|] == uses && t[..0] == [];
    }
  }

  lemma {:induction false} UsesPrefix(p: Platform, resources: seq<Resource>, i: nat)
    requires i <= |resources|
    ensures RoomForAll(p, Uses(p, resources, 0)) ==> RoomForAll(p, Uses(p, resources[..i], 0))
  {
    hide RoomForAll, Uses, Taken;
    if i < |resources| {
      var n := |resources| - 1;
      assert resources == resources[..n] + [resources[n]] && resources[..n][..i] == resources[..i];
      UsesPrefix(p, resources[..n], i);
      UsesGrow(p, resources[..n], resources[n], 0);
      RoomGrows(p, Uses(p, resources[..n], 0), resources[n], |Uses(p, resources[..n], 0)|);
    } else {
      assert resources[..i] == resources;
    }
  }

  // What the n-th pin, or another resource, comes to.
  function Taken(p: Platform, r: Resource, n: nat): seq<(Resource, Use)> {
    if r.Pin? && n + 2 in p.dsm then [(r, Meaning(p, p.dsm[n + 2]))] else []
  }

  // The lookup entries, and the supplies of the regulators, of a list of uses.
  function Entries(uses: seq<(Resource, Use)>): seq<Lookup> {
    if uses == [] then []
    else
      var (r, u) := uses[|uses| - 1];
      Entries(uses[..|uses| - 1])
      + if ForSensor(u.kind) && r.Pin? then [Entry(r.path, r.line, u.conId, u.activeLow)] else []
  }

  function SupplyMaps(p: Platform, uses: seq<(Resource, Use)>): seq<seq<(string, string)>> {
    if uses == [] then []
    else
      var u := uses[|uses| - 1].1;
      SupplyMaps(p, uses[..|uses| - 1])
      + if ForRegulator(u.kind) then [Supplies(u.conId, p.sensor, SecondFor(p, u.kind))] else []
  }

  function SecondFor(p: Platform, kind: Kind): Option<string> {
    if kind == PowerEnable then p.second else None
  }

  lemma NoUse(p: Platform)
    ensures Entries([]) == [] && SupplyMaps(p, []) == [] && RoomForAll(p, [])
    ensures forall kind :: Of([], kind) == 0
  {
  }

  lemma OneUse(p: Platform, r: Resource, u: Use)
    ensures Entries([(r, u)]) ==
            if ForSensor(u.kind) && r.Pin? then [Entry(r.path, r.line, u.conId, u.activeLow)] else []
    ensures SupplyMaps(p, [(r, u)]) ==
            if ForRegulator(u.kind) then [Supplies(u.conId, p.sensor, SecondFor(p, u.kind))] else []
    ensures forall kind :: Of([(r, u)], kind) == if u.kind == kind then 1 else 0
  {
    OneMoreUse(p, [], r, u);
    assert [] + [(r, u)] == [(r, u)] && [(r, u)][..0] == [];
  }

  lemma NothingUsed(p: Platform)
    ensures Uses(p, [], 0) == []
  {
  }

  lemma TakenGrows(p: Platform, uses: seq<(Resource, Use)>, r: Resource, n: nat)
    ensures var t := Taken(p, r, n);
            && Entries(uses + t) == Entries(uses) + Entries(t)
            && SupplyMaps(p, uses + t) == SupplyMaps(p, uses) + SupplyMaps(p, t)
  {
    hide Entries, SupplyMaps;
    var t := Taken(p, r, n);
    NoUse(p);
    if t == [] {
      assert uses + t == uses;
    } else {
      OneUse(p, r, t[0].1);
      OneMoreUse(p, uses, r, t[0].1);
    }
  }

  lemma OneMoreUse(p: Platform, uses: seq<(Resource, Use)>, r: Resource, u: Use)
    ensures var more := uses + [(r, u)];
            && Entries(more) == Entries(uses)
                 + (if ForSensor(u.kind) && r.Pin? then [Entry(r.path, r.line, u.conId, u.activeLow)] else [])
            && SupplyMaps(p, more) == SupplyMaps(p, uses)
                 + (if ForRegulator(u.kind) then [Supplies(u.conId, p.sensor, SecondFor(p, u.kind))] else [])
  {
    assert (uses + [(r, u)])[..|uses|] == uses;
  }

  // ----------------------------------------------------------------- ownership

  // How often the token w is held by each part of the device.
  ghost function One(w: Token, t: Token): nat {
    if w == t then 1 else 0
  }

  ghost function Gpios(w: Token, d: Option<int>): nat {
    if d.Some? then One(w, Gpio(d.value)) else 0
  }

  ghost function InClock(w: Token, cl: bool, gpio: Option<int>): nat {
    if cl then One(w, Clk) + One(w, ClkDev) + Gpios(w, gpio) else 0
  }

  ghost function InLed(w: Token, k: nat, gpio: int): nat {
    One(w, LedClass(k)) + One(w, LedLookup(k)) + One(w, Gpio(gpio))
  }

  ghost function InLeds(w: Token, s: seq<Led>, n: nat): nat
    requires n <= |s|
  {
    if n == 0 then 0 else InLeds(w, s, n - 1) + InLed(w, n - 1, s[n - 1].gpio)
  }

  ghost function InRegulators(w: Token, s: seq<Regulator>, n: nat): nat
    requires n <= |s|
  {
    if n == 0 then 0 else InRegulators(w, s, n - 1) + One(w, Rdev(n - 1)) + One(w, Gpio(s[n - 1].gpio))
  }

  // What is stored past the first n places does not matter.
  lemma {:induction false} LedsBelow(w: Token, s: seq<Led>, t: seq<Led>, n: nat)
    requires n <= |s| && n <= |t| && forall i :: 0 <= i < n ==> s[i] == t[i]
    ensures InLeds(w, s, n) == InLeds(w, t, n)
  {
    if n > 0 {
      LedsBelow(w, s, t, n - 1);
    }
  }

  lemma {:induction false} RegulatorsBelow(w: Token, s: seq<Regulator>, t: seq<Regulator>, n: nat)
    requires n <= |s| && n <= |t| && forall i :: 0 <= i < n ==> s[i] == t[i]
    ensures InRegulators(w, s, n) == InRegulators(w, t, n)
  {
    if n > 0 {
      RegulatorsBelow(w, s, t, n - 1);
    }
  }

  lemma LedAdded(w: Token, s: seq<Led>, n: nat, x: Led)
    requires n < |s|
    ensures InLeds(w, s[n := x], n) == InLeds(w, s, n)
    ensures InLeds(w, s[n := x], n + 1) == InLeds(w, s, n) + InLed(w, n, x.gpio)
  {
    LedsBelow(w, s, s[n := x], n);
  }

  lemma RegulatorAdded(w: Token, s: seq<Regulator>, n: nat, x: Regulator)
    requires n < |s|
    ensures InRegulators(w, s[n := x], n) == InRegulators(w, s, n)
    ensures InRegulators(w, s[n := x], n + 1) == InRegulators(w, s, n) + One(w, Rdev(n)) + One(w, Gpio(x.gpio))
  {
    RegulatorsBelow(w, s, s[n := x], n);
  }

  // ---------------------------------------------------------------- the device

  // The balance of one token, any one: how often it was taken, less how often
  // it was given back.
  class Device {
    const p: Platform
    const table: array<Lookup>
    const regulators: array<Regulator>
    const leds: array<Led>
    var ngpios: nat
    var nSensor: nat
    var nRegulators: nat
    var nLeds: nat
    var clockCl: bool
    var enaGpio: Option<int>
    var pledDev: LedDev
    var pledGpio: int
    var listed: bool
    var requested: set<int>        // the environment's: descriptors somebody holds
    ghost const w: Token
    ghost var balance: int
    ghost var unheld: nat          // how often w was given back while nobody held it
    ghost var failed: Option<int>  // the enable GPIO of a regulator_register that failed
    ghost var denied: bool         // the kernel refused the driver something

    ghost predicate Sized()
      reads this`nRegulators, this`nLeds
    {
      && regulators.Length == p.maxRegulators && leds.Length == p.maxLeds
      && nRegulators <= p.maxRegulators && nLeds <= p.maxLeds
    }

    // The entries in use, then nothing but null entries, one at least.
    ghost predicate Terminated()
      reads this`nSensor, table
    {
      && table.Length == p.maxSensor + 1 && nSensor <= p.maxSensor
      && (forall i :: 0 <= i < nSensor ==> table[i].Entry?)
      && (forall i :: nSensor <= i < table.Length ==> table[i].Null?)
    }

    ghost function Held(): nat
      requires Sized()
      reads this`clockCl, this`enaGpio, this`pledDev, this`pledGpio, this`listed
      reads this`nRegulators, this`nLeds, regulators, leds
    {
      HeldByClock() + HeldByPled() + HeldByLeds() + HeldByRegulators() + HeldByTable()
    }

    ghost function HeldByClock(): nat
      reads this`clockCl, this`enaGpio
    {
      InClock(w, clockCl, enaGpio)
    }

    ghost function HeldByPled(): nat
      reads this`pledDev, this`pledGpio
    {
      if pledDev.LiveDev? then InLed(w, 0, pledGpio) else 0
    }

    ghost function HeldByLeds(): nat
      requires nLeds <= leds.Length
      reads this`nLeds, leds
    {
      InLeds(w, leds[..], nLeds)
    }

    ghost function HeldByRegulators(): nat
      requires nRegulators <= regulators.Length
      reads this`nRegulators, regulators
    {
      InRegulators(w, regulators[..], nRegulators)
    }

    ghost function HeldByTable(): nat
      reads this`listed
    {
      if listed then One(w, Table) else 0
    }

    ghost predicate Valid()
      reads this, table, regulators, leds
    {
      && Sized() && Terminated() && Known() && balance == Held() && unheld == GivenTwice()
      && (if p.ledArray then pledDev == NoDev else nLeds == 0)
    }

    // A descriptor has one holder at most.
    ghost predicate Known()
      reads this`requested, this`balance
    {
      w.Gpio? ==> balance == if w.d in requested then 1 else 0
    }

    // The regulator core let go of it, and then the driver again.
    ghost function GivenTwice(): nat
      reads this`failed
    {
      if p.registerKeeps then 0 else Gpios(w, failed)
    }

    // No registration has failed: an enable GPIO only with a clock.
    ghost predicate Clean()
      reads this`clockCl, this`enaGpio, this`failed, this`denied
    {
      (clockCl || enaGpio.None?) && failed.None? && !denied
    }

    ghost function Clocks(): nat
      reads this`clockCl
    {
      if clockCl then 1 else 0
    }

    ghost function Leds(): nat
      reads this`nLeds, this`pledDev
    {
      if p.ledArray then nLeds else if pledDev != NoDev then 1 else 0
    }

    // There is no place for one more pin of this use.
    ghost predicate Full(u: Use)
      reads this`nSensor, this`nRegulators, this`clockCl, this`nLeds, this`pledDev
    {
      FullFor(p, nSensor, Clocks(), Leds(), nRegulators, u)
    }

    // A freshly zeroed device, watched for any token.
    constructor (p: Platform, ghost w: Token)
      ensures Valid() && Clean() && this.p == p && this.w == w
      ensures fresh(table) && fresh(regulators) && fresh(leds)
      ensures ngpios == 0 && nSensor == 0 && nRegulators == 0 && !listed && Clocks() == 0 && Leds() == 0
    {
      this.p, this.w := p, w;
      table := new Lookup[p.maxSensor + 1](_ => Null);
      regulators := new Regulator[p.maxRegulators](_ => Regulator(0, []));
      leds := new Led[p.maxLeds](_ => Led(0));
      ngpios, nSensor, nRegulators, nLeds := 0, 0, 0, 0;
      clockCl, enaGpio, pledDev, pledGpio, listed := false, None, NoDev, 0, false;
      requested, balance, unheld, failed, denied := {}, 0, 0, None, false;
    }

    ghost method Take(t: Token)
      requires !t.Gpio?
      modifies this`balance
      ensures balance == old(balance) + One(w, t) && (old(Known()) ==> Known())
    {
      balance := balance + One(w, t);
    }

    // Nothing is given back that is not held.
    ghost method Release(t: Token)
      requires One(w, t) <= balance && !t.Gpio?
      modifies this`balance
      ensures balance == old(balance) - One(w, t) && (old(Known()) ==> Known())
    {
      balance := balance - One(w, t);
    }

    // Through a temporary lookup table, gone again either way. A descriptor
    // somebody holds is busy.
    method GpiodGet() returns (gpio: Option<int>)
      requires Known() && !denied
      modifies this`balance, this`requested, this`denied
      ensures Known() && balance == old(balance) + Gpios(w, gpio)
      ensures gpio.None? <==> denied
    {
      gpio := *;
      if gpio.Some? && gpio.value in requested {
        gpio := None;
      }
      denied := gpio.None?;
      if gpio.Some? {
        requested := requested + {gpio.value};
        balance := balance + One(w, Gpio(gpio.value));
      }
    }

    // gpiod_put, of a descriptor that should be held.
    method GpiodPut(gpio: Option<int>)
      requires Known()
      modifies this`balance, this`requested, this`unheld
      ensures Known() && requested == old(requested) - if gpio.Some? then {gpio.value} else {}
      ensures Gpios(w, gpio) <= old(balance) ==> balance == old(balance) - Gpios(w, gpio) && unheld == old(unheld)
      ensures Gpios(w, gpio) > old(balance) >= 0 ==> balance == old(balance) && unheld == old(unheld) + Gpios(w, gpio)
    {
      if gpio.Some? {
        if gpio.value in requested {
          requested := requested - {gpio.value};
          balance := balance - One(w, Gpio(gpio.value));
        } else {
          unheld := unheld + One(w, Gpio(gpio.value));
        }
      }
    }

    // ------------------------------------------------------------------ clocks

    method RegisterClock() returns (ok: bool)
      requires !clockCl && balance >= 0 && Known() && !denied
      modifies this`clockCl, this`balance, this`denied
      ensures clockCl == ok == !denied && Known()
      ensures balance == old(balance) + if ok then One(w, Clk) + One(w, ClkDev) else 0
    {
      var named: bool, clk: bool, cl: bool := *, *, *;
      denied := !(named && clk && cl);
      if !named {
        return false;
      }
      if !clk {
        return false;
      }
      Take(Clk);
      clockCl := cl;
      if !cl {
        Release(Clk);
        return false;
      }
      Take(ClkDev);
      ok := true;
    }

    method RegisterGpioClock(gpio: int) returns (ok: bool)
      requires Sized() && Clean() && Known() && balance == Held() + One(w, Gpio(gpio))
      modifies this`clockCl, this`enaGpio, this`balance, this`denied
      ensures Known() && balance == Held() + if ok then 0 else One(w, Gpio(gpio))
      ensures ok ==> Clean() && clockCl
      ensures ok <==> !denied && !old(clockCl)
    {
      hide HeldByRegulators, HeldByLeds, HeldByPled, HeldByTable, One;
      if clockCl {
        return false;
      }
      enaGpio := Some(gpio);
      ok := RegisterClock();
    }

    // A GPIO clock takes precedence; a platform without either is fine.
    method RegisterDsmClock() returns (ok: bool)
      requires Sized() && Clean() && Known() && balance == Held()
      modifies this`clockCl, this`balance, this`denied
      ensures Known() && balance == Held() && (ok ==> Clean())
      ensures (ok <==> !denied) && (ok ==> clockCl == (old(clockCl) || p.dsmClock))
    {
      if clockCl {
        return true;
      }
      if !p.dsmClock {
        return true;
      }
      ok := RegisterClock();
    }

    method UnregisterClock()
      requires Known() && InClock(w, clockCl, enaGpio) <= balance
      modifies this`balance, this`requested, this`unheld
      ensures Known() && unheld == old(unheld) && balance == old(balance) - InClock(w, clockCl, enaGpio)
    {
      if !clockCl {
        return;
      }
      Release(ClkDev);
      Release(Clk);
      GpiodPut(enaGpio);
    }

    // ------------------------------------------------------------- privacy LEDs

    // Before Linux 7.1: one LED, live when its class device is neither null nor
    // an error; a failing registration leaves either of these.
    method RegisterPled(gpio: int) returns (ok: bool)
      requires Sized() && Known() && !denied && balance == Held() + One(w, Gpio(gpio))
      modifies this`pledDev, this`pledGpio, this`balance, this`denied
      ensures Known() && balance == Held() + if ok then 0 else One(w, Gpio(gpio))
      ensures ok <==> !denied && old(pledDev) == NoDev
      ensures ok ==> pledDev == LiveDev
    {
      hide HeldByRegulators, HeldByLeds, HeldByClock, HeldByTable, One;
      if pledDev != NoDev {
        return false;
      }
      pledGpio := gpio;
      var dev: LedDev := *;
      pledDev := dev;
      denied := dev != LiveDev;
      if dev != LiveDev {
        return false;
      }
      Take(LedClass(0));
      Take(LedLookup(0));
      ok := true;
    }

    method UnregisterPled()
      requires Known() && (pledDev.LiveDev? ==> InLed(w, 0, pledGpio) <= balance)
      modifies this`balance, this`requested, this`unheld
      ensures Known() && unheld == old(unheld)
      ensures balance == old(balance) - if pledDev.LiveDev? then InLed(w, 0, pledGpio) else 0
    {
      if pledDev == NoDev || pledDev == ErrDev {
        return;
      }
      Release(LedLookup(0));
      Release(LedClass(0));
      GpiodPut(Some(pledGpio));
    }

    // From Linux 7.1: an array of them.
    method RegisterLed(gpio: int) returns (ok: bool)
      requires Sized() && Known() && !denied && balance == Held() + One(w, Gpio(gpio))
      modifies this`nLeds, this`balance, this`denied, leds
      ensures ok <==> !denied && old(nLeds) < p.maxLeds
      ensures nLeds == old(nLeds) + if ok then 1 else 0
      ensures Sized() && Known() && balance == Held() + if ok then 0 else One(w, Gpio(gpio))
    {
      hide HeldByRegulators, HeldByClock, HeldByPled, HeldByTable, HeldByLeds, One;
      if nLeds >= p.maxLeds {
        return false;
      }
      StoreLed(gpio);
      var registered: bool := *;
      denied := !registered;
      if !registered {
        return false;
      }
      Take(LedClass(nLeds));
      Take(LedLookup(nLeds));
      CountLed(gpio);
      ok := true;
    }

    // The slot past the LEDs in use is filled first, and counted once registered.
    method StoreLed(gpio: int)
      requires nLeds < leds.Length
      modifies leds
      ensures leds[nLeds] == Led(gpio) && HeldByLeds() == old(HeldByLeds())
    {
      hide InLeds;
      LedAdded(w, leds[..], nLeds, Led(gpio));
      leds[nLeds] := Led(gpio);
      assert leds[..] == old(leds[..])[nLeds := Led(gpio)];
    }

    method CountLed(ghost gpio: int)
      requires nLeds < leds.Length && leds[nLeds] == Led(gpio)
      modifies this`nLeds
      ensures nLeds == old(nLeds) + 1
      ensures HeldByLeds() == old(HeldByLeds()) + InLed(w, old(nLeds), gpio)
    {
      hide One, InLed;
      nLeds := nLeds + 1;
    }

    method UnregisterLeds()
      requires Sized() && Known() && InLeds(w, leds[..], nLeds) <= balance
      modifies this`balance, this`requested, this`unheld
      ensures Known() && unheld == old(unheld) && balance == old(balance) - InLeds(w, leds[..], nLeds)
    {
      hide InLeds, One;
      NoLeds(w, leds[..]);
      for i := 0 to nLeds
        invariant Known() && unheld == old(unheld) && balance == old(balance) - InLeds(w, leds[..], i)
      {
        LedNext(w, leds[..], i, nLeds);
        Release(LedLookup(i));
        Release(LedClass(i));
        GpiodPut(Some(leds[i].gpio));
      }
    }

    // -------------------------------------------------------------- regulators

    // The supply map: two names, each for one or two devices.
    method FillSupplyMap(name: string, second: Option<string>) returns (map_: seq<(string, string)>)
      ensures map_ == Supplies(name, p.sensor, second)
    {
      map_ := [];
      for i := 0 to REGULATOR_SUPPLY_MAP_COUNT
        invariant i == 0 ==> map_ == []
        invariant i == 1 ==> map_ == [(name, p.sensor)] + if second.Some? then [(name, second.value)] else []
        invariant i == 2 ==> map_ == Supplies(name, p.sensor, second)
      {
        var supply := if i != 0 then Upper(name) else name;
        map_ := map_ + [(supply, p.sensor)];
        if second.Some? {
          map_ := map_ + [(supply, second.value)];
        }
      }
    }

    // The regulator takes the GPIO over. When regulator_register fails, it leaves
    // the GPIO, or has let go of it already.
    method RegisterRegulator(gpio: int, name: string, second: Option<string>) returns (ok: bool)
      requires Sized() && Known() && failed.None? && !denied && unheld == 0 && balance == Held() + One(w, Gpio(gpio))
      modifies this`nRegulators, this`balance, this`requested, this`unheld, this`failed, this`denied, regulators
      ensures Sized() && Known() && unheld == 0
      ensures if ok then balance == Held() && failed.None? else LeftOver(gpio)
      ensures ok <==> !denied && |name| < SUPPLY_NAME_LENGTH && old(nRegulators) < p.maxRegulators
      ensures regulators[..nRegulators] ==
                old(regulators[..nRegulators]) + if ok then [Regulator(gpio, Supplies(name, p.sensor, second))] else []
    {
      hide HeldByLeds, HeldByClock, HeldByPled, HeldByTable, HeldByRegulators, One, Supplies;
      if nRegulators >= p.maxRegulators {
        return false;
      }
      if |name| >= SUPPLY_NAME_LENGTH {
        return false;
      }
      var supplies := FillSupplyMap(name, second);
      StoreRegulator(Regulator(gpio, supplies));
      var registered: bool := *;
      denied := !registered;
      if !registered {
        RegistrationFailed(gpio);
        return false;
      }
      Take(Rdev(nRegulators));
      CountRegulator();
      ok := true;
    }

    // regulator_register failed, and let go of the GPIO unless it leaves it.
    method RegistrationFailed(gpio: int)
      requires Sized() && Known() && failed.None? && unheld == 0 && balance == Held() + One(w, Gpio(gpio))
      modifies this`balance, this`requested, this`unheld, this`failed
      ensures Sized() && Known() && unheld == 0 && LeftOver(gpio)
    {
      hide HeldByLeds, HeldByClock, HeldByPled, HeldByTable, HeldByRegulators, One;
      failed := Some(gpio);
      if !p.registerKeeps {
        GpiodPut(Some(gpio));
      }
    }

    // Likewise for regulators.
    method StoreRegulator(x: Regulator)
      requires nRegulators < regulators.Length
      modifies regulators
      ensures regulators[nRegulators] == x && regulators[..nRegulators] == old(regulators[..nRegulators])
      ensures HeldByRegulators() == old(HeldByRegulators())
    {
      hide InRegulators;
      RegulatorAdded(w, regulators[..], nRegulators, x);
      regulators[nRegulators] := x;
      assert regulators[..] == old(regulators[..])[nRegulators := x];
    }

    method CountRegulator()
      requires nRegulators < regulators.Length
      modifies this`nRegulators
      ensures nRegulators == old(nRegulators) + 1
      ensures regulators[..nRegulators] == old(regulators[..nRegulators]) + [regulators[old(nRegulators)]]
      ensures HeldByRegulators() ==
              old(HeldByRegulators()) + One(w, Rdev(old(nRegulators))) + One(w, Gpio(regulators[old(nRegulators)].gpio))
    {
      hide One;
      nRegulators := nRegulators + 1;
    }

    // regulator_unregister lets go of the GPIO too.
    method UnregisterRegulators()
      requires Sized() && Known() && InRegulators(w, regulators[..], nRegulators) <= balance
      modifies this`balance, this`requested, this`unheld
      ensures Known() && unheld == old(unheld) && balance == old(balance) - InRegulators(w, regulators[..], nRegulators)
    {
      hide InRegulators, One;
      NoRegulators(w, regulators[..]);
      for i := 0 to nRegulators
        invariant Known() && unheld == old(unheld) && balance == old(balance) - InRegulators(w, regulators[..], i)
      {
        RegulatorNext(w, regulators[..], i, nRegulators);
        Release(Rdev(i));
        GpiodPut(Some(regulators[i].gpio));
      }
    }

    // --------------------------------------------------------------- one resource

    // skl_int3472_map_gpio_to_sensor: the entry is written whole or not at all.
    method MapGpioToSensor(r: Resource, u: Use) returns (ok: bool)
      requires Terminated() && r.Pin? && !denied
      modifies this`nSensor, this`denied, table
      ensures Terminated()
      ensures ok <==> !denied && old(nSensor) < p.maxSensor
      ensures table[..nSensor] ==
                old(table[..nSensor]) + if ok then [Entry(r.path, r.line, u.conId, u.activeLow)] else []
    {
      if nSensor >= p.maxSensor {
        return false;
      }
      var found: bool := *;
      denied := !found;
      if !found {
        return false;
      }
      table[nSensor] := Entry(r.path, r.line, u.conId, u.activeLow);
      nSensor := nSensor + 1;
      ok := true;
    }

    // A pin that becomes a clock, an LED or a regulator.
    method RegisterPin(u: Use, gpio: int) returns (ok: bool)
      requires Valid1(gpio) && failed.None? && Clean() && !ForSensor(u.kind) && u.kind != Unknown
      modifies this`clockCl, this`enaGpio, this`pledDev, this`pledGpio, this`nLeds, this`nRegulators
      modifies this`balance, this`requested, this`unheld, this`failed, this`denied
      modifies leds, regulators
      ensures if ok then Valid() && Clean() else Valid1(gpio)
      ensures (ok <==> !denied && !old(Full(u))) && (ok ==> Counted(u))
      ensures ok ==> SuppliesOf(regulators[..nRegulators]) ==
                     SuppliesOf(old(regulators[..nRegulators]))
                     + if ForRegulator(u.kind) then [Supplies(u.conId, p.sensor, SecondFor(p, u.kind))] else []
    {
      hide HeldByLeds, HeldByRegulators, HeldByClock, HeldByPled, HeldByTable, Supplies;
      if u.kind == ClkEnable {
        ok := RegisterGpioClock(gpio);
      } else if u.kind == PrivacyLed {
        if p.ledArray {
          ok := RegisterLed(gpio);
        } else {
          ok := RegisterPled(gpio);
        }
      } else {
        var second := None;
        if u.kind == PowerEnable {
          second := p.second;
        }
        ok := RegisterRegulator(gpio, u.conId, second);
        if ok {
          assert regulators[..nRegulators] == old(regulators[..nRegulators]) + [regulators[nRegulators - 1]];
        }
      }
    }

    // The descriptor is still to be given back, or the regulator core already did.
    ghost predicate LeftOver(gpio: int)
      requires Sized()
      reads this, regulators, leds
    {
      && (failed.None? || failed == Some(gpio))
      && (failed.Some? && !p.registerKeeps ==> gpio !in requested)
      && balance == Held() + if failed.Some? && !p.registerKeeps then 0 else One(w, Gpio(gpio))
    }

    // One more pin of this use is counted.
    twostate predicate Counted(u: Use)
      reads this`clockCl, this`nLeds, this`pledDev
    {
      && Clocks() == old(Clocks()) + (if u.kind == ClkEnable then 1 else 0)
      && Leds() == old(Leds()) + (if u.kind == PrivacyLed then 1 else 0)
    }

    // Valid but for one descriptor just obtained.
    ghost predicate Valid1(gpio: int)
      reads this, table, regulators, leds
    {
      && Sized() && Terminated() && Known() && unheld == 0 && LeftOver(gpio)
      && (if p.ledArray then pledDev == NoDev else nLeds == 0)
    }

    // The use of a pin, its polarity turned round by an on-value of 0.
    method MeaningOf(d: Dsm) returns (u: Use)
      ensures u == Meaning(p, d)
    {
      u := GetConIdAndPolarity(p.hid, d.kind, p.power1);
      if d.onValue == 0 {
        u := u.(activeLow := !u.activeLow);
      }
    }

    // skl_int3472_handle_gpio_resources: false is an errno, which ends the walk.
    method HandleGpioResource(r: Resource) returns (ok: bool)
      requires Valid() && Clean()
      modifies this`clockCl, this`enaGpio, this`pledDev, this`pledGpio, this`nLeds, this`nRegulators
      modifies this`balance, this`requested, this`unheld, this`failed, this`denied
      modifies this`nSensor, this`ngpios, leds, regulators, table
      ensures Valid()
      ensures ok <==> !denied && forall i :: 0 <= i < |Taken(p, r, old(ngpios))| ==> !old(Full(Taken(p, r, ngpios)[i].1))
      ensures ok ==> Clocks() == old(Clocks()) + Of(Taken(p, r, old(ngpios)), ClkEnable)
      ensures ok ==> Leds() == old(Leds()) + Of(Taken(p, r, old(ngpios)), PrivacyLed)
      ensures ok ==> Clean() && ngpios == old(ngpios) + |Taken(p, r, old(ngpios))|
      ensures ok ==> table[..nSensor] == old(table[..nSensor]) + Entries(Taken(p, r, old(ngpios)))
      ensures ok ==> SuppliesOf(regulators[..nRegulators]) ==
                     SuppliesOf(old(regulators[..nRegulators])) + SupplyMaps(p, Taken(p, r, old(ngpios)))
    {
      hide HeldByLeds, HeldByRegulators, HeldByClock, HeldByPled, HeldByTable, Meaning, Supplies, Entries, SupplyMaps, SuppliesOf,
           ForSensor, ForRegulator, Valid1, Full, Clocks, Leds, Held;
      NoUse(p);
      if r.Other? {
        return true;
      }
      if ngpios + 2 !in p.dsm {
        return true;
      }
      var d := p.dsm[ngpios + 2];
      var u := MeaningOf(d);
      assert Taken(p, r, ngpios) == [(r, u)];
      OneUse(p, r, u);
      assert Taken(p, r, ngpios)[0].1 == u && |Taken(p, r, ngpios)| == 1;
      ok := UsePin(r, u);
      ngpios := ngpios + 1;
    }

    // Its switch over the types.
    method UsePin(r: Resource, u: Use) returns (ok: bool)
      requires Valid() && Clean() && r.Pin?
      modifies this`clockCl, this`enaGpio, this`pledDev, this`pledGpio, this`nLeds, this`nRegulators
      modifies this`balance, this`requested, this`unheld, this`failed, this`denied
      modifies this`nSensor, leds, regulators, table
      ensures Valid() && (ok ==> Clean())
      ensures (ok <==> !denied && !old(Full(u))) && (ok ==> Counted(u))
      ensures ok ==> table[..nSensor] == old(table[..nSensor])
                     + if ForSensor(u.kind) then [Entry(r.path, r.line, u.conId, u.activeLow)] else []
      ensures ok ==> SuppliesOf(regulators[..nRegulators]) ==
                     SuppliesOf(old(regulators[..nRegulators]))
                     + if ForRegulator(u.kind) then [Supplies(u.conId, p.sensor, SecondFor(p, u.kind))] else []
    {
      hide HeldByLeds, HeldByRegulators, HeldByClock, HeldByPled, HeldByTable, Supplies, SuppliesOf;
      if ForSensor(u.kind) {
        ok := MapGpioToSensor(r, u);
      } else if u.kind == Unknown {
        ok := true;
      } else {
        ok := AcquirePin(u);
      }
    }

    method AcquirePin(u: Use) returns (ok: bool)
      requires Valid() && Clean() && !ForSensor(u.kind) && u.kind != Unknown
      modifies this`clockCl, this`enaGpio, this`pledDev, this`pledGpio, this`nLeds, this`nRegulators
      modifies this`balance, this`requested, this`unheld, this`failed, this`denied
      modifies leds, regulators
      ensures Valid() && (ok ==> Clean())
      ensures (ok <==> !denied && !old(Full(u))) && (ok ==> Counted(u))
      ensures ok ==> SuppliesOf(regulators[..nRegulators]) ==
                     SuppliesOf(old(regulators[..nRegulators]))
                     + if ForRegulator(u.kind) then [Supplies(u.conId, p.sensor, SecondFor(p, u.kind))] else []
    {
      hide HeldByLeds, HeldByRegulators, HeldByClock, HeldByPled, HeldByTable;
      var gpio := GpiodGet();
      if gpio.None? {
        return false;
      }
      ok := RegisterPin(u, gpio.value);
      if !ok {
        GpiodPut(gpio);
      }
    }

    // --------------------------------------------------------- probe and remove

    // What a walk that was not cut short leaves in the device.
    ghost predicate Configured(resources: seq<Resource>)
      reads this`ngpios, this`nSensor, this`nRegulators, table, regulators
    {
      var uses := Uses(p, resources, 0);
      && nSensor <= table.Length && nRegulators <= regulators.Length
      && ngpios == |uses|
      && table[..nSensor] == Entries(uses)
      && SuppliesOf(regulators[..nRegulators]) == SupplyMaps(p, uses)
    }

    // int3472_discrete_parse_crs.
    method ParseCrs(resources: seq<Resource>) returns (ok: bool)
      requires Valid() && Clean() && ngpios == 0 && nSensor == 0 && nRegulators == 0 && !listed
      requires Clocks() == 0 && Leds() == 0
      modifies this, table, leds, regulators
      ensures Valid() && listed == ok
      ensures ok <==> !denied && RoomForAll(p, Uses(p, resources, 0))
      ensures ok ==> Clocks() == if p.dsmClock || Of(Uses(p, resources, 0), ClkEnable) > 0 then 1 else 0
      ensures ok ==> Leds() == Of(Uses(p, resources, 0), PrivacyLed)
      ensures ok ==> Clean() && Configured(resources)
    {
      hide InLeds, InRegulators, InClock, InLed, Entries, SupplyMaps, SuppliesOf;
      ok := WalkCrs(resources);
      if !ok {
        return;
      }
      ok := RegisterDsmClock();
      if !ok {
        return;
      }
      listed := true;
      Take(Table);
    }

    // acpi_dev_get_resources: every resource in turn, until one fails; it may
    // also fail by itself.
    method WalkCrs(resources: seq<Resource>) returns (ok: bool)
      requires Valid() && Clean() && ngpios == 0 && nSensor == 0 && nRegulators == 0 && Clocks() == 0 && Leds() == 0
      modifies this`clockCl, this`enaGpio, this`pledDev, this`pledGpio, this`nLeds, this`nRegulators
      modifies this`balance, this`requested, this`unheld, this`failed, this`denied
      modifies this`nSensor, this`ngpios, leds, regulators, table
      ensures Valid()
      ensures ok <==> !denied && RoomForAll(p, Uses(p, resources, 0))
      ensures ok ==> Tallied(Uses(p, resources, 0))
      ensures ok ==> Clean() && Configured(resources)
    {
      hide InLeds, InRegulators, InClock, InLed, Entries, SupplyMaps, Taken, Uses, Held, RoomForAll, Of, Clocks, Leds;
      NoUse(p);
      assert Uses(p, [], 0) == [] by {
        NothingUsed(p);
      }
      for i := 0 to |resources|
        invariant Valid() && Clean() && Configured(resources[..i])
        invariant Tallied(Uses(p, resources[..i], 0))
      {
        ghost var uses := Uses(p, resources[..i], 0);
        UsesGrow(p, resources[..i], resources[i], 0);
        TakenGrows(p, uses, resources[i], |uses|);
        RoomGrows(p, uses, resources[i], |uses|);
        UsesPrefix(p, resources, i + 1);
        FullSeen(uses);
        assert resources[..i + 1] == resources[..i] + [resources[i]];
        ok := HandleGpioResource(resources[i]);
        if !ok {
          return;
        }
      }
      assert resources[..|resources|] == resources;
      ok := *;
      denied := !ok;
    }

    // The counters are those of the uses so far, all of which there was room for.
    ghost predicate Tallied(uses: seq<(Resource, Use)>)
      reads this`clockCl, this`nLeds, this`pledDev
    {
      Clocks() == Of(uses, ClkEnable) && Leds() == Of(uses, PrivacyLed) && RoomForAll(p, uses)
    }

    lemma FullSeen(uses: seq<(Resource, Use)>)
      requires Tallied(uses) && nSensor == |Entries(uses)| && nRegulators == |SupplyMaps(p, uses)|
      ensures forall u :: Full(u) <==> !RoomFor(p, uses, u)
    {
    }

    // int3472_discrete_cleanup: after it nothing is held, of any token.
    method Cleanup()
      requires Valid()
      modifies this`listed, this`balance, this`requested, this`unheld
      ensures Known() && balance == 0 && unheld == old(unheld) && !listed
    {
      hide InRegulators, InClock, InLed;
      if listed {
        Release(Table);
      }
      listed := false;
      UnregisterClock();
      if p.ledArray {
        UnregisterLeds();
      } else {
        UnregisterPled();
      }
      UnregisterRegulators();
    }
  }

  // skl_int3472_discrete_probe, from the allocation on.
  method Probe(p: Platform, resources: seq<Resource>, ghost w: Token) returns (device: Device, ok: bool)
    ensures fresh(device) && device.p == p && device.w == w
    ensures !ok ==> device.Known() && device.balance == 0 && device.unheld == device.GivenTwice()
    ensures ok <==> !device.denied && RoomForAll(p, Uses(p, resources, 0))
    ensures ok ==> device.Valid() && device.listed && device.Configured(resources) && device.Clean()
  {
    device := new Device(p, w);
    ok := device.ParseCrs(resources);
    if !ok {
      device.Cleanup();
    }
  }

  // A whole life: a failed probe, or a probe and a remove. Every token taken was
  // given back once, and nothing was given back that nobody held but, where a
  // failing regulator_register lets go of the enable GPIO, the GPIO of the one
  // registration that failed, once.
  method Lifetime(p: Platform, resources: seq<Resource>, ghost w: Token) returns (device: Device)
    ensures fresh(device) && device.p == p && device.w == w && device.balance == 0
    ensures w.Gpio? ==> w.d !in device.requested
    ensures device.unheld == if !p.registerKeeps && device.failed.Some? && w == Gpio(device.failed.value) then 1 else 0
  {
    var ok;
    device, ok := Probe(p, resources, w);
    if ok {
      device.Cleanup();
    }
  }

  function SuppliesOf(s: seq<Regulator>): seq<seq<(string, string)>> {
    seq(|s|, i requires 0 <= i < |s| => s[i].supplies)
  }

  lemma NoLeds(w: Token, s: seq<Led>)
    ensures InLeds(w, s, 0) == 0
  {
  }

  lemma NoRegulators(w: Token, s: seq<Regulator>)
    ensures InRegulators(w, s, 0) == 0
  {
  }

  // The i-th of n, and what is still held with it.
  lemma LedNext(w: Token, s: seq<Led>, i: nat, n: nat)
    requires i < n <= |s|
    ensures InLeds(w, s, i) + InLed(w, i, s[i].gpio) == InLeds(w, s, i + 1) <= InLeds(w, s, n)
  {
    hide One, InLed;
    LedsGrow(w, s, i + 1, n);
  }

  lemma RegulatorNext(w: Token, s: seq<Regulator>, i: nat, n: nat)
    requires i < n <= |s|
    ensures InRegulators(w, s, i) + One(w, Rdev(i)) + One(w, Gpio(s[i].gpio)) == InRegulators(w, s, i + 1)
    ensures InRegulators(w, s, i + 1) <= InRegulators(w, s, n)
  {
    RegulatorsGrow(w, s, i + 1, n);
  }

  lemma {:induction false} LedsGrow(w: Token, s: seq<Led>, m: nat, n: nat)
    requires m <= n <= |s|
    ensures InLeds(w, s, m) <= InLeds(w, s, n)
    decreases n
  {
    if m < n {
      LedsGrow(w, s, m, n - 1);
    }
  }

  lemma {:induction false} RegulatorsGrow(w: Token, s: seq<Regulator>, m: nat, n: nat)
    requires m <= n <= |s|
    ensures InRegulators(w, s, m) <= InRegulators(w, s, n)
    decreases n
  {
    if m < n {
      RegulatorsGrow(w, s, m, n - 1);
    }
  }
}
