/** How an interface gets its mode and its VLANs (Layer2/layer2.c, net.c).  The
    switches rely on what is proved here: an access port has one VLAN, and no port
    works in L2 and in L3 mode at once. */
module InterfaceConfig {
  import opened Interfaces

  const NO_VLANS: Vlans := [0, 0, 0, 0, 0, 0, 0, 0, 0, 0]

  datatype Config = Config(l3: bool, backup: bool, mode: Mode, vlans: Vlans)

  // init_intf_nw_prop.
  const FRESH := Config(false, false, Unknown, NO_VLANS)

  // The slots below `n` hold no VLAN, and the one at `n` does, if there is one.
  predicate FirstFree(vlans: Vlans, n: nat) {
    n < MAX_VLANS && vlans[n] == 0 && forall i | 0 <= i < n :: vlans[i] != 0
  }

  // The last slot that holds a VLAN; the first one if none does.
  predicate LastTaken(vlans: Vlans, n: nat) {
    n < MAX_VLANS && (vlans[n] != 0 || n == 0) && forall i | n < i < MAX_VLANS :: vlans[i] == 0
  }

  // All but the first slot are free.
  predicate Single(vlans: Vlans) {
    forall i | 1 <= i < MAX_VLANS :: vlans[i] == 0
  }

  function ModeSet(c: Config, mode: Mode): Config {
    if c.l3 then Config(false, true, mode, c.vlans)
    else c.(mode := mode, vlans := if c.mode.Trunk? && mode.Access? then NO_VLANS else c.vlans)
  }

  ghost predicate VlanSet(c: Config, vlan: nat, d: Config) {
    if c.l3 || c.mode.Unknown? then d == c
    else if c.mode.Access? then exists n: nat :: LastTaken(c.vlans, n) && d == c.(vlans := c.vlans[n := vlan])
    else if vlan in c.vlans || 0 !in c.vlans then d == c
    else exists n: nat :: FirstFree(c.vlans, n) && d == c.(vlans := c.vlans[n := vlan])
  }

  class Interface {
    var l3: bool
    var backup: bool
    var mode: Mode
    var vlans: Vlans

    ghost function C(): Config
      reads this
    {
      Config(l3, backup, mode, vlans)
    }

    constructor ()
      ensures C() == FRESH
    {
      l3, backup, mode, vlans := false, false, Unknown, NO_VLANS;
    }

    /** interface_set_l2_mode. */
    method SetMode(wanted: Mode)
      requires !wanted.Unknown?
      modifies this
      ensures C() == ModeSet(old(C()), wanted)
    {
      if l3 {
        backup := true;
        l3 := false;
        mode := wanted;
        return;
      }
      if mode.Unknown? {
        mode := wanted;
        return;
      }
      if mode == wanted {
        return;
      }
      if mode.Access? && wanted.Trunk? {
        mode := wanted;
        return;
      }
      if mode.Trunk? && wanted.Access? {
        mode := wanted;
        var i := 0;
        while i < MAX_VLANS
          invariant 0 <= i <= MAX_VLANS && forall j | 0 <= j < i :: vlans[j] == 0
          invariant !l3 && mode == wanted && backup == old(backup)
        {
          vlans := vlans[i := 0];
          i := i + 1;
        }
        assert vlans == NO_VLANS;
      }
    }

    /** interface_set_vlan. */
    method SetVlan(vlan: nat)
      modifies this
      ensures VlanSet(old(C()), vlan, C())
    {
      if l3 {
        return;
      }
      if !mode.Access? && !mode.Trunk? {
        return;
      }
      if mode.Access? {
        var i, at := 0, -1;
        while i < MAX_VLANS
          invariant 0 <= i <= MAX_VLANS && -1 <= at < i
          invariant at >= 0 ==> vlans[at] != 0
          invariant forall j | at < j < i :: vlans[j] == 0
        {
          if vlans[i] != 0 {
            at := i;
          }
          i := i + 1;
        }
        assert LastTaken(vlans, if at >= 0 then at else 0);
        if at >= 0 {
          vlans := vlans[at := vlan];
          return;
        }
        vlans := vlans[0 := vlan];
      } else {
        var i, at := 0, -1;
        while i < MAX_VLANS
          invariant 0 <= i <= MAX_VLANS && -1 <= at < i && C() == old(C())
          invariant forall j | 0 <= j < i && j != at :: vlans[j] != vlan
          invariant if at < 0 then forall j | 0 <= j < i :: vlans[j] != 0 else FirstFree(vlans, at)
        {
          if at < 0 && vlans[i] == 0 {
            at := i;
          } else if vlans[i] == vlan {
            return;
          }
          i := i + 1;
        }
        if at >= 0 {
          assert vlan == 0 ==> vlans[at := vlan] == vlans;
          vlans := vlans[at := vlan];
        }
      }
    }

    // node_set_intf_ip_address.
    method SetAddress()
      modifies this
      ensures C() == old(C()).(l3 := true)
    {
      l3 := true;
    }
  }

  // ---------- what the settings mean ----------

  /** A VLAN set on an access port is the one the port works in, exactly if it was
      already, or if no slot but the first is taken. */
  lemma TakesEffect(c: Config, vlan: nat, d: Config)
    requires !c.l3 && c.mode.Access? && VlanSet(c, vlan, d)
    ensures d.vlans[0] == vlan <==> c.vlans[0] == vlan || Single(c.vlans)
  {
    var n: nat :| LastTaken(c.vlans, n) && d == c.(vlans := c.vlans[n := vlan]);
    if n > 0 {
      assert c.vlans[n] != 0;
    }
  }

  /** A trunk gains the VLAN if a slot is free, and keeps all others, each once. */
  lemma Membership(c: Config, vlan: nat, d: Config)
    requires !c.l3 && c.mode.Trunk? && VlanSet(c, vlan, d)
    ensures forall v | v != 0 :: v in d.vlans <==> v in c.vlans || (v == vlan && 0 in c.vlans)
    ensures Distinct(c.vlans) ==> Distinct(d.vlans)
  {
    if vlan !in c.vlans && 0 in c.vlans {
      var n: nat :| FirstFree(c.vlans, n) && d == c.(vlans := c.vlans[n := vlan]);
      assert d.vlans[n] == vlan;
      forall v | v != 0 && v in c.vlans ensures v in d.vlans {
        var i :| 0 <= i < MAX_VLANS && c.vlans[i] == v;
        assert d.vlans[i] == v;
      }
    }
  }

  predicate Distinct(vlans: Vlans) {
    forall i, j | 0 <= i < j < MAX_VLANS && vlans[i] != 0 :: vlans[i] != vlans[j]
  }

  datatype Command = Mode(mode: Mode) | Vlan(vlan: nat) | Address

  ghost predicate Does(c: Config, e: Command, d: Config) {
    match e
    case Mode(mode) => !mode.Unknown? && d == ModeSet(c, mode)
    case Vlan(vlan) => VlanSet(c, vlan, d)
    case Address => d == c.(l3 := true)
  }

  // The configurations that a list of commands leads through.
  ghost predicate Configures(cs: seq<Config>, es: seq<Command>) {
    |cs| == |es| + 1 && cs[0] == FRESH && forall i {:trigger es[i]} | 0 <= i < |es| :: Does(cs[i], es[i], cs[i + 1])
  }

  ghost predicate Proper(c: Config) {
    && (c.l3 ==> c.mode.Unknown?) && (c.mode.Unknown? ==> c.vlans == NO_VLANS)
    && (c.mode.Access? ==> Single(c.vlans)) && Distinct(c.vlans)
    && forall i | 0 <= i < MAX_VLANS :: 0 <= c.vlans[i] < 2048
  }

  // An address is for an interface without an L2 mode; a VLAN that a tag cannot carry
  // must be refused.
  predicate Harmless(c: Config, e: Command) {
    match e
    case Mode(mode) => true
    case Vlan(vlan) => vlan < 2048 || c.l3 || c.mode.Unknown? || (c.mode.Trunk? && 0 !in c.vlans)
    case Address => c.mode.Unknown?
  }

  ghost predicate AllHarmless(cs: seq<Config>, es: seq<Command>)
    requires |es| <= |cs|
  {
    forall i {:trigger es[i]} | 0 <= i < |es| :: Harmless(cs[i], es[i])
  }

  /** A command leaves a proper configuration proper exactly if it is harmless. */
  lemma StepProper(c: Config, e: Command, d: Config)
    requires Proper(c) && Does(c, e, d)
    ensures Proper(d) <==> Harmless(c, e)
  {
    if e.Vlan? {
      VlanProper(c, e.vlan, d);
    }
  }

  lemma VlanProper(c: Config, vlan: nat, d: Config)
    requires Proper(c) && VlanSet(c, vlan, d)
    ensures Proper(d) <==> Harmless(c, Vlan(vlan))
  {
    if !c.l3 && c.mode.Access? {
      var n: nat :| LastTaken(c.vlans, n) && d == c.(vlans := c.vlans[n := vlan]);
      assert d.vlans[n] == vlan;
    } else if !c.l3 && c.mode.Trunk? && vlan !in c.vlans && 0 in c.vlans {
      var n: nat :| FirstFree(c.vlans, n) && d == c.(vlans := c.vlans[n := vlan]);
      assert d.vlans[n] == vlan;
    }
  }

  /** On every run, all configurations are proper exactly if all commands are harmless. */
  lemma {:induction false} RunProper(cs: seq<Config>, es: seq<Command>)
    requires Configures(cs, es)
    ensures (forall c | c in cs :: Proper(c)) <==> AllHarmless(cs, es)
    decreases |es|
  {
    if es != [] {
      var n := |es| - 1;
      var before, rest := cs[..n + 1], es[..n];
      RunProper(before, rest);
      assert cs == before + [cs[n + 1]] && es == rest + [es[n]];
      assert Does(cs[n], es[n], cs[n + 1]) && cs[n] in before;
      if Proper(cs[n]) {
        StepProper(cs[n], es[n], cs[n + 1]);
      }
      assert AllHarmless(cs, es) <==> AllHarmless(before, rest) && Harmless(cs[n], es[n]) by {
        HarmlessNext(cs, es);
      }
    } else {
      assert cs == [FRESH];
    }
  }

  lemma HarmlessNext(cs: seq<Config>, es: seq<Command>)
    requires es != [] && |cs| == |es| + 1
    ensures var n := |es| - 1; AllHarmless(cs, es) <==> AllHarmless(cs[..n + 1], es[..n]) && Harmless(cs[n], es[n])
  {
    var n := |es| - 1;
    assert forall i | 0 <= i < n :: es[..n][i] == es[i] && cs[..n + 1][i] == cs[i];
  }

  /** If they are, the ports are as the switches need them, and a VLAN set on an access
      port takes effect. */
  lemma PortsAreSound(cs: seq<Config>, es: seq<Command>, mac: Mac)
    requires Configures(cs, es) && AllHarmless(cs, es)
    ensures forall c | c in cs :: Sound(Port(c.l3, c.mode, c.vlans, mac))
    ensures forall i | 0 <= i < |es| && es[i].Vlan? && cs[i].mode.Access? ::
      Operating(Port(cs[i + 1].l3, cs[i + 1].mode, cs[i + 1].vlans, mac)) == es[i].vlan
  {
    RunProper(cs, es);
    forall i | 0 <= i < |es| && es[i].Vlan? && cs[i].mode.Access? ensures cs[i + 1].vlans[0] == es[i].vlan {
      assert cs[i] in cs && Does(cs[i], es[i], cs[i + 1]);
      TakesEffect(cs[i], es[i].vlan, cs[i + 1]);
    }
  }

  // ---------- what a history of commands leaves ----------

  // The mode asked for last.
  function LastMode(es: seq<Command>): Mode
    decreases |es|
  {
    if es == [] then Unknown
    else if es[|es| - 1].Mode? then es[|es| - 1].mode
    else LastMode(es[..|es| - 1])
  }

  // No mode has been asked for since an address was given.
  predicate Addressed(es: seq<Command>)
    decreases |es|
  {
    es != [] && (es[|es| - 1].Address? || (es[|es| - 1].Vlan? && Addressed(es[..|es| - 1])))
  }

  // A mode has been asked for while there was an address.
  predicate Retired(es: seq<Command>)
    decreases |es|
  {
    es != [] && (Retired(es[..|es| - 1]) || (es[|es| - 1].Mode? && Addressed(es[..|es| - 1])))
  }

  /** An interface is in the mode asked for last.  It works in L3 mode exactly if it was
      given an address since, and remembers whether a mode ever replaced an address. */
  lemma {:induction false} History(cs: seq<Config>, es: seq<Command>)
    requires Configures(cs, es)
    ensures cs[|es|].mode == LastMode(es)
    ensures cs[|es|].l3 <==> Addressed(es)
    ensures cs[|es|].backup <==> Retired(es)
    decreases |es|
  {
    if es != [] {
      var n := |es| - 1;
      ConfiguresInit(cs, es);
      History(cs[..n + 1], es[..n]);
      assert cs[..n + 1][n] == cs[n] && Does(cs[n], es[n], cs[n + 1]);
    }
  }

  lemma ConfiguresInit(cs: seq<Config>, es: seq<Command>)
    requires Configures(cs, es) && es != []
    ensures Configures(cs[..|es|], es[..|es| - 1])
  {
    var n := |es| - 1;
    forall i | 0 <= i < n ensures Does(cs[..n + 1][i], es[..n][i], cs[..n + 1][i + 1]) {
      assert es[..n][i] == es[i];
    }
  }

  // The port was a trunk in L2 mode, and is asked to be an access port.
  predicate Demoted(es: seq<Command>, i: nat)
    requires i < |es|
  {
    es[i] == Mode(Access) && LastMode(es[..i]) == Trunk && !Addressed(es[..i])
  }

  /** Its VLANs survive all changes of the mode but one from trunk to access in L2 mode,
      which takes them all; an address leaves them alone, and while there is one, or no
      mode yet, so does a VLAN command. */
  lemma VlansKept(cs: seq<Config>, es: seq<Command>, i: nat)
    requires Configures(cs, es) && i < |es|
    ensures Demoted(es, i) ==> cs[i + 1].vlans == NO_VLANS
    ensures !Demoted(es, i) && (!es[i].Vlan? || Addressed(es[..i]) || LastMode(es[..i]).Unknown?) ==>
      cs[i + 1].vlans == cs[i].vlans
  {
    ConfiguresFront(cs, es, i);
    History(cs[..i + 1], es[..i]);
    assert Does(cs[i], es[i], cs[i + 1]);
  }

  lemma {:induction false} ConfiguresFront(cs: seq<Config>, es: seq<Command>, i: nat)
    requires Configures(cs, es) && i <= |es|
    ensures Configures(cs[..i + 1], es[..i])
    decreases |es|
  {
    if i < |es| {
      ConfiguresInit(cs, es);
      ConfiguresFront(cs[..|es|], es[..|es| - 1], i);
      assert cs[..|es|][..i + 1] == cs[..i + 1] && es[..|es| - 1][..i] == es[..i];
    } else {
      assert cs[..i + 1] == cs && es[..i] == es;
    }
  }

  /** An address given to an interface with an L2 mode: as a trunk again it is as it was;
      as an access port it is proper exactly if no slot but the first was taken. */
  lemma AddressKeeps(c: Config)
    requires Proper(c)
    ensures Proper(c.(l3 := true)) <==> c.mode.Unknown?
    ensures Proper(ModeSet(c.(l3 := true), Trunk))
    ensures Proper(ModeSet(c.(l3 := true), Access)) <==> Single(c.vlans)
  {
    assert c.mode.Unknown? ==> Single(c.vlans);
  }

  const COMMANDS := [Mode(Trunk), Vlan(5), Vlan(6), Address, Mode(Access), Vlan(7)]

  function Slots(a: int, b: int): Vlans {
    [a, b, 0, 0, 0, 0, 0, 0, 0, 0]
  }

  const CONFIGS := [
    FRESH,
    Config(false, false, Trunk, NO_VLANS),
    Config(false, false, Trunk, Slots(5, 0)),
    Config(false, false, Trunk, Slots(5, 6)),
    Config(true, false, Trunk, Slots(5, 6)),
    Config(false, true, Access, Slots(5, 6)),
    Config(false, true, Access, Slots(5, 7))
  ]

  lemma TrunkGains(a: int, b: int, vlan: nat)
    requires vlan != 0 && vlan != a && b == 0
    ensures VlanSet(
      Config(false, false, Trunk, Slots(a, b)), vlan,
      Config(false, false, Trunk, if a == 0 then Slots(vlan, 0) else Slots(a, vlan)))
  {
    var n: nat := if a == 0 then 0 else 1;
    assert FirstFree(Slots(a, b), n);
    assert Slots(a, b)[n := vlan] == if a == 0 then Slots(vlan, 0) else Slots(a, vlan);
    assert Slots(a, b)[2] == 0;
  }

  /** An address given to a trunk lets its VLANs survive the change to access mode; the
      next VLAN set then lands in the second slot, and the port stays in the first. */
  lemma AddressOnTrunk(mac: Mac)
    ensures Configures(CONFIGS, COMMANDS) && COMMANDS[5] == Vlan(7)
    ensures Operating(Port(CONFIGS[6].l3, CONFIGS[6].mode, CONFIGS[6].vlans, mac)) == 5
  {
    TrunkGains(0, 0, 5);
    TrunkGains(5, 0, 6);
    assert Slots(0, 0) == NO_VLANS;
    assert LastTaken(Slots(5, 6), 1) && Slots(5, 6)[1 := 7] == Slots(5, 7);
    assert VlanSet(CONFIGS[5], 7, CONFIGS[6]);
    forall i | 0 <= i < 6 ensures Does(CONFIGS[i], COMMANDS[i], CONFIGS[i + 1]) {
    }
  }
}
