/** The configuration of an instance: its normal form and what makes it valid. */
module Configs {
  import opened Ports
  import opened Text
  import opened Wrappers

  const DEFAULT_CONFIRMATIONS := 2
  const MAX_CONFIRMATIONS := 20

  datatype InstanceConfig = InstanceConfig(
    id: string, name: string, enabled: bool, protocol: string, bindAddress: string, bindPort: string,
    stunMode: string, stunGroupID: string, stunHost: string, stunPort: int,
    keepAliveMode: string, keepAliveGroupID: string, httpHost: string, httpPort: int,
    networkInterface: string, keepAliveSeconds: int, mappingConfirmations: int, notifyScript: string, fwMark: nat)

  function Or(s: string, default: string): string {
    if s == "" then default else s
  }

  /** What normalizeConfig makes of a configuration. */
  function Normalized(c: InstanceConfig): InstanceConfig {
    var protocol := Or(ToLower(TrimSpace(c.protocol)), "tcp");
    InstanceConfig(
      c.id, Or(TrimSpace(c.name), "NATCat Instance"), c.enabled, protocol,
      TrimSpace(c.bindAddress), Or(TrimSpace(c.bindPort), "0"),
      Or(ToLower(TrimSpace(c.stunMode)), "custom"), TrimSpace(c.stunGroupID), TrimSpace(c.stunHost), c.stunPort,
      Or(ToLower(TrimSpace(c.keepAliveMode)), "custom"), TrimSpace(c.keepAliveGroupID), TrimSpace(c.httpHost),
      if c.httpPort > 0 then c.httpPort else if protocol == "udp" then 443 else 80,
      TrimSpace(c.networkInterface),
      if c.keepAliveSeconds > 0 then c.keepAliveSeconds else 30,
      if c.mappingConfirmations > 0 then c.mappingConfirmations else DEFAULT_CONFIRMATIONS,
      TrimSpace(c.notifyScript), c.fwMark)
  }

  /** normalizeConfig */
  method NormalizeConfig(config: InstanceConfig) returns (cfg: InstanceConfig)
    ensures cfg == Normalized(config)
  {
    hide TrimSpace, ToLower;
    var name := TrimSpace(config.name);
    var protocol := ToLower(TrimSpace(config.protocol));
    var bindPort := TrimSpace(config.bindPort);
    var stunMode := ToLower(TrimSpace(config.stunMode));
    var keepAliveMode := ToLower(TrimSpace(config.keepAliveMode));
    var httpPort, keepAliveSeconds, confirmations :=
      config.httpPort, config.keepAliveSeconds, config.mappingConfirmations;
    if name == "" {
      name := "NATCat Instance";
    }
    if protocol == "" {
      protocol := "tcp";
    }
    if bindPort == "" {
      bindPort := "0";
    }
    if stunMode == "" {
      stunMode := "custom";
    }
    if keepAliveMode == "" {
      keepAliveMode := "custom";
    }
    if httpPort <= 0 {
      if protocol == "udp" {
        httpPort := 443;
      } else {
        httpPort := 80;
      }
    }
    if keepAliveSeconds <= 0 {
      keepAliveSeconds := 30;
    }
    if confirmations <= 0 {
      confirmations := DEFAULT_CONFIRMATIONS;
    }
    cfg := InstanceConfig(
      config.id, name, config.enabled, protocol, TrimSpace(config.bindAddress), bindPort,
      stunMode, TrimSpace(config.stunGroupID), TrimSpace(config.stunHost), config.stunPort,
      keepAliveMode, TrimSpace(config.keepAliveGroupID), TrimSpace(config.httpHost), httpPort,
      TrimSpace(config.networkInterface), keepAliveSeconds, confirmations,
      TrimSpace(config.notifyScript), config.fwMark);
  }

  lemma LowerWordsStay(s: string, word: string)
    requires word in {"tcp", "custom"}
    ensures var r := Or(ToLower(TrimSpace(s)), word); r != "" && ToLower(TrimSpace(r)) == r
  {
    hide TrimSpace;
    LowerKeepsTrimmed(TrimSpace(s));
    ToLowerTwice(TrimSpace(s));
    assert ToLower("tcp") == "tcp" && ToLower("custom") == "custom";
    assert Trimmed("tcp", IsSpace) && Trimmed("custom", IsSpace);
  }

  lemma WordsStay(s: string, word: string)
    requires word in {"NATCat Instance", "0"}
    ensures var r := Or(TrimSpace(s), word); r != "" && TrimSpace(r) == r
  {
    assert Trimmed("NATCat Instance", IsSpace) && Trimmed("0", IsSpace);
  }

  /** Normalising a configuration twice is normalising it once. */
  lemma NormalizeConfigTwice(c: InstanceConfig)
    ensures Normalized(Normalized(c)) == Normalized(c)
  {
    hide TrimSpace, ToLower, Or;
    LowerWordsStay(c.protocol, "tcp");
    LowerWordsStay(c.stunMode, "custom");
    LowerWordsStay(c.keepAliveMode, "custom");
    WordsStay(c.name, "NATCat Instance");
    WordsStay(c.bindPort, "0");
    OrOfNonEmpty(Normalized(c).protocol, "tcp");
    OrOfNonEmpty(Normalized(c).stunMode, "custom");
    OrOfNonEmpty(Normalized(c).keepAliveMode, "custom");
    OrOfNonEmpty(Normalized(c).name, "NATCat Instance");
    OrOfNonEmpty(Normalized(c).bindPort, "0");
  }

  lemma OrOfNonEmpty(s: string, default: string)
    requires s != ""
    ensures Or(s, default) == s
  {
  }

  /** What stands in for a field that is left out: each default, and the port by the
      protocol. Everything else is kept, without surrounding white space. */
  lemma Defaults(c: InstanceConfig)
    ensures var n := Normalized(c);
            var udp := ToLower(TrimSpace(c.protocol)) == "udp";
            && (TrimSpace(c.protocol) == "" ==> n.protocol == "tcp")
            && (TrimSpace(c.protocol) != "" ==> n.protocol == ToLower(TrimSpace(c.protocol)))
            && (TrimSpace(c.stunMode) == "" ==> n.stunMode == "custom")
            && (TrimSpace(c.stunMode) != "" ==> n.stunMode == ToLower(TrimSpace(c.stunMode)))
            && (TrimSpace(c.keepAliveMode) == "" ==> n.keepAliveMode == "custom")
            && (TrimSpace(c.keepAliveMode) != "" ==> n.keepAliveMode == ToLower(TrimSpace(c.keepAliveMode)))
            && n.name == (if TrimSpace(c.name) == "" then "NATCat Instance" else TrimSpace(c.name))
            && n.bindPort == (if TrimSpace(c.bindPort) == "" then "0" else TrimSpace(c.bindPort))
            && n.httpPort == (if c.httpPort > 0 then c.httpPort else if udp then 443 else 80)
            && n.keepAliveSeconds == (if c.keepAliveSeconds > 0 then c.keepAliveSeconds else 30)
            && n.mappingConfirmations == (if c.mappingConfirmations > 0 then c.mappingConfirmations else 2)
  {
    hide TrimSpace, ToLower;
    assert ToLower("") == "";
  }

  // ----- Validity

  datatype ConfigError =
    | BadProtocol | BadSTUNMode | BadKeepAliveMode | NoQUICHost | NoHTTPHost | BadSTUNPort | BadHTTPPort
    | BadConfirmations | BadBindAddress | BadBindPort(error: SpecError)

  /** validateConfig; `isIPv4` says which texts are IPv4 addresses. */
  function ValidateConfig(c: InstanceConfig, isIPv4: string -> bool): Option<ConfigError> {
    if c.protocol != "tcp" && c.protocol != "udp" then Some(BadProtocol)
    else if c.stunMode != "custom" && c.stunMode != "group" then Some(BadSTUNMode)
    else if c.keepAliveMode != "custom" && c.keepAliveMode != "group" then Some(BadKeepAliveMode)
    else if c.keepAliveMode == "custom" && c.httpHost == "" then
      Some(if c.protocol == "udp" then NoQUICHost else NoHTTPHost)
    else if c.stunPort < 0 || c.stunPort > MAX_PORT then Some(BadSTUNPort)
    else if c.httpPort < 0 || c.httpPort > MAX_PORT then Some(BadHTTPPort)
    else if c.mappingConfirmations <= 0 || c.mappingConfirmations > MAX_CONFIRMATIONS then Some(BadConfirmations)
    else if c.bindAddress != "" && !isIPv4(c.bindAddress) then Some(BadBindAddress)
    else
      match NewPortPicker(c.bindPort)
      case Err(e) => Some(BadBindPort(e))
      case Ok(_) => None
  }

  /** The checks in their order, with the error of each. */
  ghost predicate Fails(c: InstanceConfig, isIPv4: string -> bool, check: nat) {
    match check
    case 0 => c.protocol !in {"tcp", "udp"}
    case 1 => c.stunMode !in {"custom", "group"}
    case 2 => c.keepAliveMode !in {"custom", "group"}
    case 3 => c.keepAliveMode == "custom" && c.httpHost == ""
    case 4 => !(0 <= c.stunPort <= 65535)
    case 5 => !(0 <= c.httpPort <= 65535)
    case 6 => !(1 <= c.mappingConfirmations <= 20)
    case 7 => c.bindAddress != "" && !isIPv4(c.bindAddress)
    case 8 => NewPortPicker(c.bindPort).Err?
    case _ => false
  }

  function CheckOf(e: ConfigError): nat {
    match e
    case BadProtocol => 0
    case BadSTUNMode => 1
    case BadKeepAliveMode => 2
    case NoQUICHost => 3
    case NoHTTPHost => 3
    case BadSTUNPort => 4
    case BadHTTPPort => 5
    case BadConfirmations => 6
    case BadBindAddress => 7
    case BadBindPort(_) => 8
  }

  /** The error is that of the first check that fails. */
  lemma FirstFailingCheck(c: InstanceConfig, isIPv4: string -> bool)
    ensures match ValidateConfig(c, isIPv4)
            case None => forall k :: 0 <= k < 9 ==> !Fails(c, isIPv4, k)
            case Some(e) =>
              && Fails(c, isIPv4, CheckOf(e)) && (forall k :: 0 <= k < CheckOf(e) ==> !Fails(c, isIPv4, k))
              && (CheckOf(e) == 3 ==> (e.NoQUICHost? <==> c.protocol == "udp"))
  {
    hide NewPortPicker;
  }

  /** What a runner needs of its configuration. */
  ghost predicate Usable(c: InstanceConfig, isIPv4: string -> bool) {
    && c.protocol in {"tcp", "udp"} && c.stunMode in {"custom", "group"} && c.keepAliveMode in {"custom", "group"}
    && (c.keepAliveMode == "custom" ==> TrimSpace(c.httpHost) == c.httpHost != "")
    && 0 <= c.stunPort <= MAX_PORT && 1 <= c.httpPort <= MAX_PORT
    && 1 <= c.mappingConfirmations <= MAX_CONFIRMATIONS && c.keepAliveSeconds > 0
    && (c.bindAddress == "" || isIPv4(c.bindAddress))
    && NewPortPicker(c.bindPort).Ok? && NewPortPicker(c.bindPort).value.Valid()
    && Normalized(c) == c
  }

  /** Normalising and then validating accepts exactly the configurations whose
      normal form a runner can use. */
  lemma ValidMeansUsable(config: InstanceConfig, isIPv4: string -> bool)
    ensures ValidateConfig(Normalized(config), isIPv4).None? <==> Usable(Normalized(config), isIPv4)
  {
    var c := Normalized(config);
    NormalizeConfigTwice(config);
    NormalizedFields(config);
    hide *;
    NormalizedUsable(c, isIPv4);
  }

  lemma NormalizedFields(config: InstanceConfig)
    ensures var c := Normalized(config);
            c.httpPort > 0 && c.keepAliveSeconds > 0 && c.mappingConfirmations > 0 &&
            TrimSpace(c.httpHost) == c.httpHost
  {
    hide Or, ToLower, TrimSpace;
  }

  lemma NormalizedUsable(c: InstanceConfig, isIPv4: string -> bool)
    requires Normalized(c) == c && c.httpPort > 0 && c.keepAliveSeconds > 0 && c.mappingConfirmations > 0
    requires TrimSpace(c.httpHost) == c.httpHost
    ensures ValidateConfig(c, isIPv4).None? <==> Usable(c, isIPv4)
  {
    hide Normalized, NewPortPicker, TrimSpace;
  }
}
