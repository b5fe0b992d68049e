/**
 Actions, the stale keys under which issue times are remembered, and the
 serial keys whose locks an action holds while it runs (agent/actions.go).

 Strings that the agent only compares after trimming are enumerations here;
 the formatted key strings are datatype values, one constructor per format.
 */
module ActionKeys {
  import opened Options

  datatype Protocol = Tcp | Udp | Both

  datatype Op = Apply | Remove | OtherOp

  datatype Status = Unset | RuntimeStatus | TunnelStatus | OtherStatus

  /** `entryGroup` is the tunnel of a shared FXP entry, `chains` the FWX_LIMIT_ chains named by commands. */
  datatype Action = Action(
    op: Op,
    status: Status,
    ruleID: int,
    tunnelID: int,
    sourcePort: int,
    forwardType: string,
    protocol: Protocol,
    entryGroup: Option<int>,
    chains: seq<string>,
    issuedAt: int,
    handoffOnly: bool)

  /** "forwardx-wireguard:7" is RuntimeKey("forwardx-wireguard", Some(7)). */
  datatype RuntimeKey = RuntimeKey(name: string, tunnel: Option<int>)

  datatype StaleKey =
    | StaleRuntime(runtime: RuntimeKey)
    | StaleTunnelPort(tunnel: int, port: int)
    | StaleTunnel(tunnel: int)
    | StaleRuleTunnelPort(rule: int, tunnel: int, port: int)
    | StaleRulePort(rule: int, port: int)
    | StaleRule(rule: int)
    | StalePort(port: int, protocol: Protocol)

  datatype SerialKey =
    | SerialRuntime(runtime: RuntimeKey)
    | SerialRule(rule: int)
    | SerialTunnel(tunnel: int)
    | SerialPort(port: int)
    | SerialEntryGroup(tunnel: int)
    | SerialAccessLimit(chain: string)

  predicate ValidPort(port: int) {
    0 < port <= 65535
  }

  const WIREGUARD_RUNTIME := "forwardx-wireguard"

  function RuntimeKeyOf(a: Action): RuntimeKey {
    var name := if a.forwardType == "" then "runtime" else a.forwardType;
    if a.forwardType == WIREGUARD_RUNTIME && a.tunnelID > 0
    then RuntimeKey(name, Some(a.tunnelID))
    else RuntimeKey(name, None)
  }

  function RuntimeProtocols(p: Protocol): seq<Protocol> {
    match p
    case Udp => [Udp]
    case Both => [Tcp, Udp]
    case Tcp => [Tcp]
  }

  /** The status type after an empty one has been defaulted from the IDs. */
  predicate TunnelScoped(a: Action) {
    && a.tunnelID > 0
    && (a.status.TunnelStatus? || (a.status.Unset? && a.ruleID <= 0))
  }

  function StaleKeys(a: Action): seq<StaleKey> {
    if a.status.RuntimeStatus? then
      [StaleRuntime(RuntimeKeyOf(a))]
    else
      (if TunnelScoped(a) then
         [StaleTunnelPort(a.tunnelID, a.sourcePort)] +
         (if a.op.Remove? then [] else [StaleTunnel(a.tunnelID)])
       else []) +
      (if a.ruleID > 0 then
         [StaleRuleTunnelPort(a.ruleID, a.tunnelID, a.sourcePort), StaleRulePort(a.ruleID, a.sourcePort)] +
         (if a.op.Remove? then [] else [StaleRule(a.ruleID)])
       else []) +
      (if ValidPort(a.sourcePort) then
         var ps := RuntimeProtocols(a.protocol);
         seq(|ps|, i requires 0 <= i < |ps| => StalePort(a.sourcePort, ps[i]))
       else [])
  }

  function OwnerKeys(a: Action): seq<SerialKey> {
    if a.ruleID > 0 then [SerialRule(a.ruleID)]
    else if a.tunnelID > 0 then [SerialTunnel(a.tunnelID)]
    else []
  }

  function SerialKeys(a: Action): seq<SerialKey> {
    if a.status.RuntimeStatus? then
      [SerialRuntime(RuntimeKeyOf(a))]
    else
      OwnerKeys(a) +
      (if ValidPort(a.sourcePort) then [SerialPort(a.sourcePort)] else []) +
      (if a.entryGroup.Some? then [SerialEntryGroup(a.entryGroup.value)] else []) +
      seq(|a.chains|, i requires 0 <= i < |a.chains| => SerialAccessLimit(a.chains[i]))
  }

  /** Two actions compete for the same runtime identity. */
  ghost predicate SharesStaleKey(a: Action, b: Action) {
    exists k :: k in StaleKeys(a) && k in StaleKeys(b)
  }

  /** Two actions exclude each other through some lock. */
  ghost predicate SharesSerialKey(a: Action, b: Action) {
    exists k :: k in SerialKeys(a) && k in SerialKeys(b)
  }

  /** Runtime jobs of one name; WireGuard has one runtime for each tunnel. */
  predicate SameRuntime(a: Action, b: Action) {
    && (a.forwardType == b.forwardType || (a.forwardType in {"", "runtime"} && b.forwardType in {"", "runtime"}))
    && (a.forwardType == "forwardx-wireguard" ==> a.tunnelID == b.tunnelID || (a.tunnelID <= 0 && b.tunnelID <= 0))
  }

  /** One action supersedes work of the other wherever both act on one port; applies do so on any port. */
  predicate SamePlace(a: Action, b: Action) {
    a.sourcePort == b.sourcePort || (!a.op.Remove? && !b.op.Remove?)
  }

  /** The action is about a tunnel: its status type says so, or it has none and names no rule. */
  predicate ForTunnel(a: Action, tunnel: int) {
    a.tunnelID == tunnel > 0 && (a.status == TunnelStatus || (a.status == Unset && a.ruleID <= 0))
  }

  /** Whose work an action competes with, in terms of what it says. */
  predicate Competes(a: Action, b: Action) {
    if a.status == RuntimeStatus || b.status == RuntimeStatus then a.status == b.status && SameRuntime(a, b)
    else
      || (ForTunnel(a, a.tunnelID) && ForTunnel(b, a.tunnelID) && SamePlace(a, b))
      || (a.ruleID == b.ruleID > 0 && SamePlace(a, b))
      || (1 <= a.sourcePort == b.sourcePort <= 65535 && (a.protocol == b.protocol || a.protocol == Both || b.protocol == Both))
  }

  /** Whose locks an action waits for, in terms of what it says. */
  predicate Excludes(a: Action, b: Action) {
    if a.status == RuntimeStatus || b.status == RuntimeStatus then a.status == b.status && SameRuntime(a, b)
    else
      || (a.ruleID == b.ruleID > 0)
      || (a.ruleID <= 0 && b.ruleID <= 0 && a.tunnelID == b.tunnelID > 0)
      || (1 <= a.sourcePort == b.sourcePort <= 65535)
      || (a.entryGroup.Some? && a.entryGroup == b.entryGroup)
      || exists c :: c in a.chains && c in b.chains
  }

  /**
   The one family of competing actions that no lock separates: both are scoped to
   the same tunnel, at least one carries a rule ID, and nothing else they lock
   coincides. The lock is then per rule while the issue time is per tunnel.
   */
  ghost predicate SplitTunnel(a: Action, b: Action) {
    && TunnelScoped(a) && TunnelScoped(b) && a.tunnelID == b.tunnelID
    && (a.ruleID > 0 || b.ruleID > 0) && a.ruleID != b.ruleID
    && !(a.sourcePort == b.sourcePort && ValidPort(a.sourcePort))
    && !(a.entryGroup.Some? && a.entryGroup == b.entryGroup)
    && (forall c :: c in a.chains ==> c !in b.chains)
  }

  lemma RuntimeKeyMeaning(a: Action, b: Action)
    ensures RuntimeKeyOf(a) == RuntimeKeyOf(b) <==> SameRuntime(a, b)
  {
  }

  lemma SerialKeyFacts(a: Action, b: Action)
    requires !a.status.RuntimeStatus? && !b.status.RuntimeStatus?
    ensures a.ruleID > 0 && a.ruleID == b.ruleID ==> SharesSerialKey(a, b)
    ensures a.ruleID <= 0 && b.ruleID <= 0 && a.tunnelID > 0 && a.tunnelID == b.tunnelID ==> SharesSerialKey(a, b)
    ensures ValidPort(a.sourcePort) && a.sourcePort == b.sourcePort ==> SharesSerialKey(a, b)
    ensures a.entryGroup.Some? && a.entryGroup == b.entryGroup ==> SharesSerialKey(a, b)
    ensures forall c :: c in a.chains && c in b.chains ==> SharesSerialKey(a, b)
  {
    if a.ruleID > 0 && a.ruleID == b.ruleID {
      assert SerialKeys(a)[0] == SerialKeys(b)[0] == SerialRule(a.ruleID);
      assert SerialRule(a.ruleID) in SerialKeys(a) && SerialRule(a.ruleID) in SerialKeys(b);
    }
    if a.ruleID <= 0 && b.ruleID <= 0 && a.tunnelID > 0 && a.tunnelID == b.tunnelID {
      assert SerialKeys(a)[0] == SerialKeys(b)[0] == SerialTunnel(a.tunnelID);
      assert SerialTunnel(a.tunnelID) in SerialKeys(a) && SerialTunnel(a.tunnelID) in SerialKeys(b);
    }
    if ValidPort(a.sourcePort) && a.sourcePort == b.sourcePort {
      PortIsLocked(a);
      PortIsLocked(b);
    }
    if a.entryGroup.Some? && a.entryGroup == b.entryGroup {
      EntryGroupIsLocked(a);
      EntryGroupIsLocked(b);
    }
    forall c | c in a.chains && c in b.chains ensures SharesSerialKey(a, b) {
      ChainIsLocked(a, c);
      ChainIsLocked(b, c);
    }
  }

  lemma PortIsLocked(a: Action)
    requires !a.status.RuntimeStatus? && ValidPort(a.sourcePort)
    ensures SerialPort(a.sourcePort) in SerialKeys(a)
  {
    assert SerialKeys(a)[|OwnerKeys(a)|] == SerialPort(a.sourcePort);
  }

  lemma EntryGroupIsLocked(a: Action)
    requires !a.status.RuntimeStatus? && a.entryGroup.Some?
    ensures SerialEntryGroup(a.entryGroup.value) in SerialKeys(a)
  {
    var at := |OwnerKeys(a)| + (if ValidPort(a.sourcePort) then 1 else 0);
    assert SerialKeys(a)[at] == SerialEntryGroup(a.entryGroup.value);
  }

  lemma ChainIsLocked(a: Action, c: string)
    requires !a.status.RuntimeStatus? && c in a.chains
    ensures SerialAccessLimit(c) in SerialKeys(a)
  {
    var i :| 0 <= i < |a.chains| && a.chains[i] == c;
    assert SerialKeys(a)[|SerialKeys(a)| - |a.chains| + i] == SerialAccessLimit(c);
  }

  lemma SerialKeyMeaning(a: Action, l: SerialKey)
    requires !a.status.RuntimeStatus? && l in SerialKeys(a)
    ensures match l
            case SerialRuntime(_) => false
            case SerialRule(r) => a.ruleID > 0 && r == a.ruleID
            case SerialTunnel(t) => a.ruleID <= 0 && t == a.tunnelID
            case SerialPort(p) => ValidPort(p) && p == a.sourcePort
            case SerialEntryGroup(t) => a.entryGroup == Some(t)
            case SerialAccessLimit(c) => c in a.chains
  {
  }

  /** What a stale key says about the action it belongs to. */
  lemma StaleKeyMeaning(a: Action, k: StaleKey)
    requires k in StaleKeys(a)
    ensures k.StaleRuntime? <==> a.status.RuntimeStatus?
    ensures match k
            case StaleRuntime(r) => r == RuntimeKeyOf(a)
            case StaleTunnelPort(t, p) => TunnelScoped(a) && t == a.tunnelID && p == a.sourcePort
            case StaleTunnel(t) => TunnelScoped(a) && t == a.tunnelID
            case StaleRuleTunnelPort(r, t, p) => r == a.ruleID > 0
            case StaleRulePort(r, p) => r == a.ruleID > 0
            case StaleRule(r) => r == a.ruleID > 0
            case StalePort(p, _) => ValidPort(p) && p == a.sourcePort
  {
    var i :| 0 <= i < |StaleKeys(a)| && StaleKeys(a)[i] == k;
  }

  lemma PortKey(a: Action, p: Protocol)
    requires !a.status.RuntimeStatus? && ValidPort(a.sourcePort) && p in RuntimeProtocols(a.protocol)
    ensures StalePort(a.sourcePort, p) in StaleKeys(a)
  {
    var ps := RuntimeProtocols(a.protocol);
    var i :| 0 <= i < |ps| && ps[i] == p;
    assert StaleKeys(a)[|StaleKeys(a)| - |ps| + i] == StalePort(a.sourcePort, p);
  }

  /** Every key an action has, and no other. */
  lemma StaleKeyExactly(a: Action, k: StaleKey)
    ensures k in StaleKeys(a) <==>
            if a.status == RuntimeStatus then k == StaleRuntime(RuntimeKeyOf(a))
            else match k
                 case StaleRuntime(_) => false
                 case StaleTunnelPort(t, p) => ForTunnel(a, t) && p == a.sourcePort
                 case StaleTunnel(t) => ForTunnel(a, t) && a.op != Remove
                 case StaleRuleTunnelPort(r, t, p) => r == a.ruleID > 0 && t == a.tunnelID && p == a.sourcePort
                 case StaleRulePort(r, p) => r == a.ruleID > 0 && p == a.sourcePort
                 case StaleRule(r) => r == a.ruleID > 0 && a.op != Remove
                 case StalePort(p, proto) => 1 <= p == a.sourcePort <= 65535 && proto != Both && (a.protocol == proto || a.protocol == Both)
  {
    if !a.status.RuntimeStatus? && k.StalePort? && ValidPort(a.sourcePort) && k.protocol in RuntimeProtocols(a.protocol) {
      PortKey(a, k.protocol);
    }
  }

  /** Two actions share a stale key exactly if they compete. */
  lemma StaleShareMeaning(a: Action, b: Action)
    ensures SharesStaleKey(a, b) <==> Competes(a, b)
  {
    RuntimeKeyMeaning(a, b);
    forall k ensures k in StaleKeys(a) && k in StaleKeys(b) ==> Competes(a, b) {
      StaleKeyExactly(a, k);
      StaleKeyExactly(b, k);
    }
    if Competes(a, b) {
      var k := if a.status == RuntimeStatus then StaleRuntime(RuntimeKeyOf(a)) else CommonKey(a, b);
      StaleKeyExactly(a, k);
      StaleKeyExactly(b, k);
    }
  }

  function CommonKey(a: Action, b: Action): StaleKey {
    if ForTunnel(a, a.tunnelID) && ForTunnel(b, a.tunnelID) && SamePlace(a, b) then
      if a.sourcePort == b.sourcePort then StaleTunnelPort(a.tunnelID, a.sourcePort) else StaleTunnel(a.tunnelID)
    else if a.ruleID == b.ruleID > 0 && SamePlace(a, b) then
      if a.sourcePort == b.sourcePort then StaleRulePort(a.ruleID, a.sourcePort) else StaleRule(a.ruleID)
    else StalePort(a.sourcePort, if a.protocol != Both then a.protocol else if b.protocol != Both then b.protocol else Tcp)
  }

  /** Two actions share a lock exactly if one excludes the other. */
  lemma SerialShareMeaning(a: Action, b: Action)
    ensures SharesSerialKey(a, b) <==> Excludes(a, b)
  {
    RuntimeKeyMeaning(a, b);
    if a.status.RuntimeStatus? || b.status.RuntimeStatus? {
      RuntimeLocks(a, b);
    } else {
      SerialKeyFacts(a, b);
      if l :| l in SerialKeys(a) && l in SerialKeys(b) {
        SerialKeyMeaning(a, l);
        SerialKeyMeaning(b, l);
      }
    }
  }

  lemma RuntimeLocks(a: Action, b: Action)
    requires a.status.RuntimeStatus? || b.status.RuntimeStatus?
    ensures SharesSerialKey(a, b) <==> a.status == b.status && RuntimeKeyOf(a) == RuntimeKeyOf(b)
  {
    if a.status == b.status && RuntimeKeyOf(a) == RuntimeKeyOf(b) {
      assert SerialRuntime(RuntimeKeyOf(a)) in SerialKeys(a) && SerialRuntime(RuntimeKeyOf(a)) in SerialKeys(b);
    }
    if l :| l in SerialKeys(a) && l in SerialKeys(b) {
      if !a.status.RuntimeStatus? {
        SerialKeyMeaning(a, l);
      }
      if !b.status.RuntimeStatus? {
        SerialKeyMeaning(b, l);
      }
    }
  }

  /**
   Every two actions that compete for a stale key also exclude each other through
   a serial lock, except exactly the split-tunnel pairs.
   */
  lemma StaleShareIsSerialShare(a: Action, b: Action)
    requires SharesStaleKey(a, b)
    ensures SharesSerialKey(a, b) <==> !SplitTunnel(a, b)
  {
    var k :| k in StaleKeys(a) && k in StaleKeys(b);
    StaleKeyMeaning(a, k);
    StaleKeyMeaning(b, k);
    if a.status.RuntimeStatus? {
      var l := SerialRuntime(RuntimeKeyOf(a));
      assert l in SerialKeys(a) && l in SerialKeys(b);
    } else {
      SerialKeyFacts(a, b);
      if SharesSerialKey(a, b) {
        var l :| l in SerialKeys(a) && l in SerialKeys(b);
        SerialKeyMeaning(a, l);
        SerialKeyMeaning(b, l);
      }
    }
  }

  /** Tunnel-status actions that carry no rule ID never split, so they always exclude each other. */
  lemma RulelessTunnelsNeverSplit(a: Action, b: Action)
    requires TunnelScoped(a) ==> a.ruleID <= 0
    requires TunnelScoped(b) ==> b.ruleID <= 0
    requires SharesStaleKey(a, b)
    ensures SharesSerialKey(a, b)
  {
    StaleShareIsSerialShare(a, b);
  }

  /** Two applies on tunnel 7, on different ports; one carries the ID of a rule. */
  const RULE_APPLY := Action(Apply, TunnelStatus, 1, 7, 80, "gost", Tcp, None, [], 1, false)
  const TUNNEL_APPLY := Action(Apply, TunnelStatus, 0, 7, 81, "gost", Tcp, None, [], 2, false)

  /** They compete for the tunnel, and no lock separates them. */
  lemma RuleAndTunnelApplySplit()
    ensures SharesStaleKey(RULE_APPLY, TUNNEL_APPLY) && SplitTunnel(RULE_APPLY, TUNNEL_APPLY)
    ensures !SharesSerialKey(RULE_APPLY, TUNNEL_APPLY)
  {
    assert StaleKeys(RULE_APPLY)[1] == StaleKeys(TUNNEL_APPLY)[1] == StaleTunnel(7);
    assert StaleTunnel(7) in StaleKeys(RULE_APPLY) && StaleTunnel(7) in StaleKeys(TUNNEL_APPLY);
    StaleShareIsSerialShare(RULE_APPLY, TUNNEL_APPLY);
  }
}
