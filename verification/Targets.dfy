/** Targets, and decimal numbers as the program prints them. */
module Targets {
  import opened Text
  import opened Policy

  datatype ConfigOpts = ConfigOpts(file: string, selector: string, realIP: bool)

  datatype DockerOpts = DockerOpts(container: string, socket: string)

  datatype FirewallOpts = FirewallOpts(ports: seq<int>, allowAdminPorts: bool)

  datatype Target = Target(
    id: string, provider: string, providers: seq<string>, mode: string, engine: string, transport: string,
    enabled: bool, config: ConfigOpts, docker: DockerOpts, firewall: FirewallOpts, adminAllowIPs: seq<string>)

  /** The providers, or the single one of older configurations. */
  function EffectiveProviders(t: Target): (r: seq<string>) {
    if t.providers != [] then t.providers else if t.provider != "" then [t.provider] else []
  }

  const ADMIN_PORTS := {22, 2222, 3389, 5900, 3306, 5432, 6379, 27017, 1433, 9200, 11211}

  predicate IsIdChar(c: char) {
    'A' <= c <= 'Z' || 'a' <= c <= 'z' || '0' <= c <= '9' || c == '_'
  }

  predicate ValidId(id: string) {
    && 1 <= |id| <= 63 && IsIdChar(id[0])
    && forall i :: 1 <= i < |id| ==> IsIdChar(id[i]) || id[i] == '-'
  }

  predicate ValidProvider(p: string) {
    1 <= |p| <= 40 && forall i :: 0 <= i < |p| ==> 'a' <= p[i] <= 'z' || '0' <= p[i] <= '9' || p[i] == '_'
  }

  predicate AdminPortAllowed(t: Target, port: int) {
    t.mode != "allow" || t.firewall.allowAdminPorts || port !in ADMIN_PORTS
  }

  /** What Validate accepts. */
  predicate Valid(t: Target, parse: Parser) {
    && ValidId(t.id) && (t.mode == "allow" || t.mode == "deny")
    && EffectiveProviders(t) != []
    && (forall i :: 0 <= i < |EffectiveProviders(t)| ==> ValidProvider(EffectiveProviders(t)[i]))
    && |t.firewall.ports| <= 64
    && (forall i :: 0 <= i < |t.firewall.ports| ==>
          1 <= t.firewall.ports[i] <= 65535 && AdminPortAllowed(t, t.firewall.ports[i]))
    && (forall i :: 0 <= i < |t.adminAllowIPs| ==> parse(t.adminAllowIPs[i]).Some?)
  }

  /** Validate; it stops at the first fault. */
  method Validate(t: Target, parse: Parser) returns (ok: bool)
    ensures ok <==> Valid(t, parse)
  {
    if !ValidId(t.id) || (t.mode != "allow" && t.mode != "deny") {
      return false;
    }
    var providers := EffectiveProviders(t);
    if |providers| == 0 {
      return false;
    }
    for i := 0 to |providers|
      invariant forall j :: 0 <= j < i ==> ValidProvider(providers[j])
    {
      if !ValidProvider(providers[i]) {
        return false;
      }
    }
    if |t.firewall.ports| > 64 {
      return false;
    }
    ok := ValidatePorts(t);
    if !ok {
      return;
    }
    for i := 0 to |t.adminAllowIPs|
      invariant forall j :: 0 <= j < i ==> parse(t.adminAllowIPs[j]).Some?
    {
      if parse(t.adminAllowIPs[i]).None? {
        return false;
      }
    }
  }

  method ValidatePorts(t: Target) returns (ok: bool)
    ensures ok <==> forall i :: 0 <= i < |t.firewall.ports| ==>
                      1 <= t.firewall.ports[i] <= 65535 && AdminPortAllowed(t, t.firewall.ports[i])
  {
    for i := 0 to |t.firewall.ports|
      invariant forall j :: 0 <= j < i ==>
                  1 <= t.firewall.ports[j] <= 65535 && AdminPortAllowed(t, t.firewall.ports[j])
    {
      var port := t.firewall.ports[i];
      if port < 1 || port > 65535 {
        return false;
      }
      if t.mode != "allow" || t.firewall.allowAdminPorts {
        continue;
      }
      if port in ADMIN_PORTS {
        return false;
      }
    }
    return true;
  }

  const DEFAULT_PORTS := [80, 443]

  /** The configured ports, or the web ports. */
  function FirewallPorts(t: Target): (r: seq<int>) {
    if t.firewall.ports != [] then t.firewall.ports else DEFAULT_PORTS
  }

  /** Lock-out guard: an allow-mode target polices a management port only if it says so. */
  lemma ManagementPortsUntouched(t: Target, parse: Parser, v4: seq<Cidr>, v6: seq<Cidr>, p: Packet)
    requires Valid(t, parse) && t.mode == "allow" && !t.firewall.allowAdminPorts
    requires Filter(true, FirewallPorts(t), v4, v6).Drops(p)
    ensures p.dport !in ADMIN_PORTS && 1 <= p.dport <= 65535
  {
    var ports := FirewallPorts(t);
    var i :| 0 <= i < |ports| && ports[i] == p.dport;
    if t.firewall.ports != [] {
      assert AdminPortAllowed(t, t.firewall.ports[i]);
    }
  }

  // ---------- decimal numbers ----------

  function Digit(n: nat): (c: char)
    requires n < 10
  {
    '0' + n as char
  }

  function Digits(n: nat): (r: string) {
    if n < 10 then [Digit(n)] else Digits(n / 10) + [Digit(n % 10)]
  }

  /** strconv.Itoa. */
  function Itoa(n: int): (r: string) {
    if n < 0 then "-" + Digits(-n) else Digits(n)
  }

  function Value(s: string): (n: int) {
    if s == "" then 0 else 10 * Value(s[..|s| - 1]) + (s[|s| - 1] as int - '0' as int)
  }

  function Atoi(s: string): (n: int) {
    if HasPrefix(s, "-") then -Value(s[1..]) else Value(s)
  }

  lemma {:induction false} DigitsValue(n: nat)
    ensures Value(Digits(n)) == n && Digits(n) != "" && Digits(n)[0] != '-' && OneLine(Digits(n))
  {
    if n < 10 {
      assert [Digit(n)][..0] == "";
    } else {
      DigitsValue(n / 10);
      assert Digits(n)[..|Digits(n)| - 1] == Digits(n / 10);
    }
  }

  lemma {:induction false} DigitsAreDigits(n: nat)
    ensures Digits(n) != "" && forall i :: 0 <= i < |Digits(n)| ==> '0' <= Digits(n)[i] <= '9'
  {
    if n >= 10 {
      DigitsAreDigits(n / 10);
    }
  }

  /** Printing and reading back. */
  lemma ItoaAtoi(n: int)
    ensures Atoi(Itoa(n)) == n && OneLine(Itoa(n))
  {
    DigitsValue(if n < 0 then -n else n);
    if n < 0 {
      assert ("-" + Digits(-n))[1..] == Digits(-n);
    }
  }
}
