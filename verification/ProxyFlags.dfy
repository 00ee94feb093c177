/**
 The proxy a session's browser uses (src/chrome/flags.rs, src/factory.rs and the policy in src/server.rs).
 Chromium has four proxy switches; the first of `--no-proxy-server`, `--proxy-pac-url`,
 `--proxy-auto-detect` and `--proxy-server` that occurs decides, with its own last value.
 */
module ProxyFlags {
  import opened Prelude
  import opened Flags

  const NO_PROXY: string := "--no-proxy-server"
  const PAC_URL: string := "--proxy-pac-url"
  const AUTO_DETECT: string := "--proxy-auto-detect"
  const PROXY_SERVER: string := "--proxy-server"

  /** The switches that win over `--proxy-server`. */
  const OVERRIDING: seq<string> := [NO_PROXY, PAC_URL, AUTO_DETECT]

  datatype ProxyMode = Direct | Script(url: string) | Detected | Fixed(server: string) | System

  function EffectiveProxy(args: seq<string>): ProxyMode {
    var script, server := Effective(args, PAC_URL), Effective(args, PROXY_SERVER);
    if Effective(args, NO_PROXY).Some? then Direct
    else if script.Some? then Script(script.value)
    else if Effective(args, AUTO_DETECT).Some? then Detected
    else if server.Some? then Fixed(server.value)
    else System
  }

  // ---------------------------------------------------------------- what the server does

  function SessionProxyFlags(server: string): seq<string> {
    ["--proxy-server=" + server,
     "--proxy-bypass-list=<-loopback>",
     "--force-webrtc" + "-ip-handling-policy=disable_non_proxied_udp"]
  }

  /** `sets_proxy`: the operator sets one of three of the four switches. */
  predicate SetsProxy(extra: seq<string>) {
    exists i :: 0 <= i < |extra| && Name(extra[i]) in [PROXY_SERVER, PAC_URL, AUTO_DETECT]
  }

  /** `session_proxy_policy`: whether session proxies are applied at all. */
  predicate ProxiesAllowed(enabled: bool, operator: seq<string>) {
    enabled && !SetsProxy(operator)
  }

  /** The stealth flags, with the stock user agent if the browser's version is known. */
  function StealthFlags(agent: Option<string>, operator: seq<string>): seq<string> {
    ["--disable-blink-features=AutomationControlled"]
    + (if agent.Some? && !StartsAny(operator, "--user-agent=") then ["--user-agent=" + agent.value] else [])
    + (if !StartsAny(operator, "--screen-info=") then ["--screen-info={1920x1080}"] else [])
  }

  predicate StartsAny(flags: seq<string>, prefix: string) {
    exists i :: 0 <= i < |flags| && prefix <= flags[i]
  }

  /** The extra flags of a proxied session's launch. */
  function ProxiedExtra(stealth: bool, agent: Option<string>, operator: seq<string>, server: string): seq<string> {
    (if stealth then StealthFlags(agent, operator) else []) + operator + SessionProxyFlags(server)
  }

  // ---------------------------------------------------------------- names told apart by letters

  /** A few letters tell `f` from every proxy switch. */
  predicate NoProxySwitch(f: string) {
    |f| > 5 && (f[2] == 'p' ==> f[3] != 'r') && (f[2] == 'n' ==> f[5] != 'p')
  }

  ghost predicate NoProxySwitches(flags: seq<string>) {
    forall i :: 0 <= i < |flags| ==> NoProxySwitch(flags[i])
  }

  lemma ProxyNames(name: string)
    requires name in OVERRIDING || name == PROXY_SERVER
    ensures |name| > 8 && name[0] == '-'
    ensures (name[2] == 'p' && name[3] == 'r') || (name[2] == 'n' && name[5] == 'p')
    ensures name in OVERRIDING && name[2] == 'p' ==> name[8] == 'p' || name[8] == 'a'
  {
  }

  lemma NotMergeable(name: string)
    requires name in OVERRIDING || name == PROXY_SERVER
    ensures name !in MERGEABLE
  {
    ProxyNames(name);
    forall i | 0 <= i < |MERGEABLE| ensures MERGEABLE[i] != name {
      NamesByLetters(MERGEABLE[i]);
    }
  }

  lemma NoProxySwitchReads(flags: seq<string>, name: string)
    requires NoProxySwitches(flags) && (name in OVERRIDING || name == PROXY_SERVER)
    ensures Effective(flags, name) == None
  {
    ProxyNames(name);
    forall i | 0 <= i < |flags| ensures Name(flags[i]) != name {
      var f := flags[i];
      NameDiffers(f, name, if f[2] != name[2] then 2 else if f[2] == 'p' then 3 else 5);
    }
    NoneOccurs(flags, name);
  }

  lemma EarlyFlags()
    ensures NoProxySwitches(EARLY_FLAGS)
  {
  }

  lemma MiddleFlags()
    ensures NoProxySwitches(MIDDLE_FLAGS)
  {
  }

  lemma LateFlags()
    ensures NoProxySwitches([FEATURES_FLAG] + LATE_FLAGS)
  {
    assert FEATURES_FLAG[2] == 'd';
  }

  lemma DefaultFlags()
    ensures NoProxySwitches(DEFAULT_FLAGS)
  {
    EarlyFlags();
    MiddleFlags();
    LateFlags();
    NoneConcat(EARLY_FLAGS, MIDDLE_FLAGS);
    NoneConcat(EARLY_FLAGS + MIDDLE_FLAGS, [FEATURES_FLAG] + LATE_FLAGS);
    assert DEFAULT_FLAGS == EARLY_FLAGS + MIDDLE_FLAGS + ([FEATURES_FLAG] + LATE_FLAGS);
  }

  lemma NoneConcat(a: seq<string>, b: seq<string>)
    requires NoProxySwitches(a) && NoProxySwitches(b)
    ensures NoProxySwitches(a + b)
  {
  }

  lemma OtherFlags(o: FlagOptions, agent: Option<string>, operator: seq<string>)
    ensures NoProxySwitches(LaunchFlags(o)) && NoProxySwitches(["about:blank"])
    ensures NoProxySwitches(StealthFlags(agent, operator))
  {
  }

  // ---------------------------------------------------------------- what the session's flags read as

  lemma ProxySwitchReads(server: string)
    ensures Effective(["--proxy-server=" + server], PROXY_SERVER) == Some(server)
  {
    var f := "--proxy-server=" + server;
    assert f == PROXY_SERVER + "=" + server;
    NameIs(PROXY_SERVER, f);
    assert f[|PROXY_SERVER| + 1..] == server;
  }

  lemma SessionFlagLetters(server: string, i: nat)
    requires i < 3
    ensures var f := SessionProxyFlags(server)[i];
            |f| > 8 && f[2] != 'n' && (f[2] == 'p' ==> f[8] == if i == 0 then 's' else 'b')
  {
    if i == 1 {
      assert SessionProxyFlags(server)[1][8] == 'b';
    } else if i == 2 {
      assert SessionProxyFlags(server)[2][2] == 'f';
    }
  }

  lemma SessionFlagIsOther(server: string, name: string, i: nat)
    requires i < 3 && (name in OVERRIDING || (name == PROXY_SERVER && i > 0))
    ensures Name(SessionProxyFlags(server)[i]) != name
  {
    var f := SessionProxyFlags(server)[i];
    ProxyNames(name);
    SessionFlagLetters(server, i);
    assert name == PROXY_SERVER ==> name[8] == 's';
    NameDiffers(f, name, if f[2] != name[2] then 2 else 8);
  }

  lemma SessionFlagsRead(server: string, name: string)
    requires name in OVERRIDING || name == PROXY_SERVER
    ensures Effective(SessionProxyFlags(server), name) == if name == PROXY_SERVER then Some(server) else None
  {
    var f := SessionProxyFlags(server);
    forall i | 0 <= i < 3 && (name == PROXY_SERVER ==> i > 0) ensures Name(f[i]) != name {
      SessionFlagIsOther(server, name, i);
    }
    if name == PROXY_SERVER {
      ReadsFirst(f, name);
      ProxySwitchReads(server);
      assert f[..1] == ["--proxy-server=" + server];
    } else {
      NoneOccurs(f, name);
    }
  }

  lemma ReadsFirst(f: seq<string>, name: string)
    requires |f| > 0 && forall i :: 1 <= i < |f| ==> Name(f[i]) != name
    ensures Effective(f, name) == Effective(f[..1], name)
  {
    NoneOccurs(f[1..], name);
    assert f == f[..1] + f[1..];
    EffectiveConcat(f[..1], f[1..], name);
  }

  /** Of a proxied launch, a proxy switch reads as in the session's flags, and else as in the operator's. */
  lemma ProxySwitchIn(o: FlagOptions, stealth: bool, agent: Option<string>, operator: seq<string>, server: string,
                      name: string)
    requires name in OVERRIDING || name == PROXY_SERVER
    requires o.extra == ProxiedExtra(stealth, agent, operator, server)
    ensures Effective(Built(DEFAULT_FLAGS, o), name)
         == if name == PROXY_SERVER then Some(server) else Effective(operator, name)
  {
    var hidden := if stealth then StealthFlags(agent, operator) else [];
    var front := DEFAULT_FLAGS + LaunchFlags(o);
    NotMergeable(name);
    OtherSwitch(DEFAULT_FLAGS, o, name);
    DefaultFlags();
    OtherFlags(o, agent, operator);
    NoneConcat(DEFAULT_FLAGS, LaunchFlags(o));
    NoProxySwitchReads(front, name);
    NoProxySwitchReads(hidden, name);
    NoProxySwitchReads(["about:blank"], name);
    SessionFlagsRead(server, name);
    EffectiveConcat(hidden, operator, name);
    EffectiveConcat(hidden + operator, SessionProxyFlags(server), name);
    EffectiveConcat(front, o.extra, name);
    EffectiveConcat(front + o.extra, ["about:blank"], name);
  }

  // ---------------------------------------------------------------- the effective proxy

  /** The operator's list has a switch that wins over the relay's. */
  ghost predicate Overrides(operator: seq<string>) {
    exists i :: 0 <= i < |operator| && Name(operator[i]) in OVERRIDING
  }

  lemma {:induction false} ReadIffOccurs(args: seq<string>, name: string)
    ensures Effective(args, name).Some? <==> exists i :: 0 <= i < |args| && Name(args[i]) == name
  {
    if args != [] {
      var n := |args| - 1;
      ReadIffOccurs(args[..n], name);
      if Effective(args[..n], name).Some? {
        var i :| 0 <= i < n && Name(args[..n][i]) == name;
        assert Name(args[i]) == name;
      }
      if exists i :: 0 <= i < |args| && Name(args[i]) == name {
        var i :| 0 <= i < |args| && Name(args[i]) == name;
        assert i < n ==> Name(args[..n][i]) == name;
      }
    }
  }

  lemma OverridesIff(operator: seq<string>)
    ensures Overrides(operator)
       <==> || Effective(operator, NO_PROXY).Some? || Effective(operator, PAC_URL).Some?
            || Effective(operator, AUTO_DETECT).Some?
  {
    ReadIffOccurs(operator, NO_PROXY);
    ReadIffOccurs(operator, PAC_URL);
    ReadIffOccurs(operator, AUTO_DETECT);
  }

  /**
   A proxied session's browser goes through its relay if and only if the operator's flags have none of
   the switches that win over `--proxy-server`; an operator's own `--proxy-server` never matters.
   */
  lemma RelayIsEffectiveIff(o: FlagOptions, stealth: bool, agent: Option<string>, operator: seq<string>, server: string)
    requires o.extra == ProxiedExtra(stealth, agent, operator, server)
    ensures EffectiveProxy(Built(DEFAULT_FLAGS, o)) == Fixed(server) <==> !Overrides(operator)
  {
    OverridesIff(operator);
    ProxySwitchIn(o, stealth, agent, operator, server, NO_PROXY);
    ProxySwitchIn(o, stealth, agent, operator, server, PAC_URL);
    ProxySwitchIn(o, stealth, agent, operator, server, AUTO_DETECT);
    ProxySwitchIn(o, stealth, agent, operator, server, PROXY_SERVER);
    ProxyServerIsOther();
  }

  lemma ProxyServerIsOther()
    ensures PROXY_SERVER !in OVERRIDING
  {
    assert PROXY_SERVER[2] != NO_PROXY[2] && PROXY_SERVER[8] != PAC_URL[8] && PROXY_SERVER[8] != AUTO_DETECT[8];
  }

  /** Under the server's policy exactly one of those switches is left that can take the relay away. */
  lemma PolicyLeavesOne(o: FlagOptions, stealth: bool, agent: Option<string>, operator: seq<string>, server: string)
    requires o.extra == ProxiedExtra(stealth, agent, operator, server) && ProxiesAllowed(true, operator)
    ensures var mode := EffectiveProxy(Built(DEFAULT_FLAGS, o));
            mode == if Effective(operator, NO_PROXY).Some? then Direct else Fixed(server)
  {
    AllowedHasNoScript(operator);
    ProxySwitchIn(o, stealth, agent, operator, server, NO_PROXY);
    ProxySwitchIn(o, stealth, agent, operator, server, PAC_URL);
    ProxySwitchIn(o, stealth, agent, operator, server, AUTO_DETECT);
    ProxySwitchIn(o, stealth, agent, operator, server, PROXY_SERVER);
    ProxyServerIsOther();
  }

  lemma AllowedHasNoScript(operator: seq<string>)
    requires !SetsProxy(operator)
    ensures Effective(operator, PAC_URL).None? && Effective(operator, AUTO_DETECT).None?
  {
    ReadIffOccurs(operator, PAC_URL);
    ReadIffOccurs(operator, AUTO_DETECT);
  }

  /** The policy admits such a list, and the session it allows a proxy then goes direct. */
  lemma AllowedYetDirect(o: FlagOptions, stealth: bool, agent: Option<string>, server: string)
    requires o.extra == ProxiedExtra(stealth, agent, [NO_PROXY], server)
    ensures ProxiesAllowed(true, [NO_PROXY]) && EffectiveProxy(Built(DEFAULT_FLAGS, o)) == Direct
  {
    DistinctNames();
    NoEquals();
    NamedAlone([NO_PROXY], NO_PROXY);
    PolicyLeavesOne(o, stealth, agent, [NO_PROXY], server);
  }

  lemma NamedAlone(operator: seq<string>, name: string)
    requires operator == [name] && '=' !in name && name !in [PROXY_SERVER, PAC_URL, AUTO_DETECT]
    ensures !SetsProxy(operator) && Effective(operator, name).Some?
  {
    NameIs(name, operator[0]);
  }

  lemma DistinctNames()
    ensures NO_PROXY !in [PROXY_SERVER, PAC_URL, AUTO_DETECT]
  {
    assert NO_PROXY[2] != PROXY_SERVER[2] && NO_PROXY[2] != PAC_URL[2] && NO_PROXY[2] != AUTO_DETECT[2];
  }

  lemma NoEquals()
    ensures '=' !in NO_PROXY
  {
  }

  // ---------------------------------------------------------------- the rest of the session's flags

  lemma LastFlagReads(front: seq<string>, name: string, value: string)
    requires '=' !in name
    ensures Effective(front + [name + "=" + value], name) == Some(value)
  {
    var f := name + "=" + value;
    assert name + "=" <= f;
    NameIs(name, f);
    assert f[|name| + 1..] == value;
    assert (front + [f])[..|front|] == front;
  }

  lemma OthersAfter(front: seq<string>, f: string, name: string)
    requires Name(f) != name
    ensures Effective(front + [f], name) == Effective(front, name)
  {
    assert (front + [f])[..|front|] == front;
  }

  const BYPASS: string := "--proxy-bypass-list"
  const WEBRTC: string := "--force-webrtc" + "-ip-handling-policy"

  lemma OtherSwitchNames()
    ensures '=' !in BYPASS && '=' !in WEBRTC && BYPASS !in MERGEABLE && WEBRTC !in MERGEABLE
  {
    assert BYPASS[2] == 'p' && WEBRTC[2] == 'f';
    forall i | 0 <= i < |MERGEABLE| ensures MERGEABLE[i] != BYPASS && MERGEABLE[i] != WEBRTC {
      NamesByLetters(MERGEABLE[i]);
    }
  }

  lemma ThreeFlags(f: seq<string>)
    requires |f| == 3
    ensures f == f[..2] + [f[2]] && f[..2] == f[..1] + [f[1]]
  {
  }

  lemma WebRtcReads(server: string)
    ensures Effective(SessionProxyFlags(server), WEBRTC) == Some("disable_non_proxied_udp")
  {
    var f := SessionProxyFlags(server);
    OtherSwitchNames();
    ThreeFlags(f);
    assert f[2] == WEBRTC + "=" + "disable_non_proxied_udp";
    LastFlagReads(f[..2], WEBRTC, "disable_non_proxied_udp");
  }

  lemma BypassFlag(server: string)
    ensures SessionProxyFlags(server)[1] == BYPASS + "=" + "<-loopback>"
  {
  }

  lemma NextToLastReads(f: seq<string>, name: string, value: string)
    requires |f| == 3 && '=' !in name && f[1] == name + "=" + value && Name(f[2]) != name
    ensures Effective(f, name) == Some(value)
  {
    ThreeFlags(f);
    LastFlagReads(f[..1], name, value);
    OthersAfter(f[..2], f[2], name);
  }

  lemma WebRtcIsNotBypass(server: string)
    ensures Name(SessionProxyFlags(server)[2]) != BYPASS
  {
    SessionFlagLetters(server, 2);
    assert SessionProxyFlags(server)[2][2] == 'f' && BYPASS[2] == 'p';
    NameDiffers(SessionProxyFlags(server)[2], BYPASS, 2);
  }

  lemma BypassReads(server: string)
    ensures Effective(SessionProxyFlags(server), BYPASS) == Some("<-loopback>")
  {
    OtherSwitchNames();
    BypassFlag(server);
    WebRtcIsNotBypass(server);
    NextToLastReads(SessionProxyFlags(server), BYPASS, "<-loopback>");
  }

  /** Whatever the operator sets: loopback goes through a session's proxy too, and WebRTC keeps to it. */
  lemma TrafficKeepsToTheProxy(o: FlagOptions, stealth: bool, agent: Option<string>, operator: seq<string>,
                               server: string)
    requires o.extra == ProxiedExtra(stealth, agent, operator, server)
    ensures Effective(Built(DEFAULT_FLAGS, o), BYPASS) == Some("<-loopback>")
    ensures Effective(Built(DEFAULT_FLAGS, o), WEBRTC) == Some("disable_non_proxied_udp")
  {
    OtherSwitchNames();
    BypassReads(server);
    WebRtcReads(server);
    SessionFlagWins(o, stealth, agent, operator, server, BYPASS);
    SessionFlagWins(o, stealth, agent, operator, server, WEBRTC);
  }

  lemma SessionFlagWins(o: FlagOptions, stealth: bool, agent: Option<string>, operator: seq<string>, server: string,
                        name: string)
    requires o.extra == ProxiedExtra(stealth, agent, operator, server) && name !in MERGEABLE
    requires name != "" && name[0] == '-' && Effective(SessionProxyFlags(server), name).Some?
    ensures Effective(Built(DEFAULT_FLAGS, o), name) == Effective(SessionProxyFlags(server), name)
  {
    var hidden := if stealth then StealthFlags(agent, operator) else [];
    var front := DEFAULT_FLAGS + LaunchFlags(o);
    OtherSwitch(DEFAULT_FLAGS, o, name);
    EffectiveConcat(hidden + operator, SessionProxyFlags(server), name);
    EffectiveConcat(front, o.extra, name);
    EffectiveConcat(front + o.extra, ["about:blank"], name);
    BlankIsNoSwitch(name);
  }

  lemma BlankIsNoSwitch(name: string)
    requires name != "" && name[0] == '-'
    ensures Effective(["about:blank"], name) == None
  {
    var f := "about:blank";
    NameDiffers(f, name, 0);
    NoneOccurs([f], name);
  }

  /** Stealth adds its user agent and screen exactly where the operator has none. */
  lemma StealthYields(agent: string, operator: seq<string>)
    ensures var flags := StealthFlags(Some(agent), operator);
            && "--disable-blink-features=AutomationControlled" in flags
            && (("--user-agent=" + agent) in flags <==> !StartsAny(operator, "--user-agent="))
            && ("--screen-info={1920x1080}" in flags <==> !StartsAny(operator, "--screen-info="))
    ensures StealthFlags(None, operator) == ["--disable-blink-features=AutomationControlled"]
              + if StartsAny(operator, "--screen-info=") then [] else ["--screen-info={1920x1080}"]
  {
    assert ("--user-agent=" + agent)[2] == 'u' && "--screen-info={1920x1080}"[2] == 's';
    assert "--disable-blink-features=AutomationControlled"[2] == 'd';
    var flags := StealthFlags(Some(agent), operator);
    assert flags[0] == "--disable-blink-features=AutomationControlled";
    assert !StartsAny(operator, "--user-agent=") ==> flags[1] == "--user-agent=" + agent;
    assert !StartsAny(operator, "--screen-info=") ==> flags[|flags| - 1] == "--screen-info={1920x1080}";
  }
}
