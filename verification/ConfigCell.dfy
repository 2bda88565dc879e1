/** The process-wide configuration cell: one AgentConfig and the cached accessor that wraps it. */
module ConfigCell {
  import opened Options

  // What tenant discovery hears: the address and port of the tenant server.
  datatype Endpoint = Endpoint(ip: string, port: int)

  datatype Addresses = Addresses(backendUrl: string, wsUrl: string, platformApiUrl: string)

  const DEFAULT_ADDRESSES :=
    Addresses("http://localhost:8060", "ws://localhost:8060/ws/agent", "http://localhost:8060/api")

  function Digits(n: nat): string {
    if n < 10 then [('0' as int + n) as char] else Digits(n / 10) + [('0' as int + n % 10) as char]
  }

  /** Python's str() of an int. */
  function Decimal(n: int): string {
    if n < 0 then "-" + Digits(-n) else Digits(n)
  }

  function BaseUrl(e: Endpoint): string {
    "http://" + e.ip + ":" + Decimal(e.port)
  }

  function AddressesOf(e: Endpoint): Addresses {
    Addresses(BaseUrl(e), "ws://" + e.ip + ":" + Decimal(e.port) + "/ws/agent", BaseUrl(e) + "/api")
  }

  class AgentConfig {
    var backendUrl: string
    var wsUrl: string
    var platformApiUrl: string

    function View(): Addresses
      reads this
    {
      Addresses(backendUrl, wsUrl, platformApiUrl)
    }

    constructor (a: Addresses)
      ensures View() == a
    {
      backendUrl, wsUrl, platformApiUrl := a.backendUrl, a.wsUrl, a.platformApiUrl;
    }
  }

  class Config {
    const config: AgentConfig

    constructor (config: AgentConfig)
      ensures this.config == config
    {
      this.config := config;
    }

    /** The ws_url property: it reads through to the wrapped configuration. */
    function WsUrl(): string
      reads config
    {
      config.wsUrl
    }
  }

  // What the program does to the cell: read it, read the accessor, load a file, or hear from tenant discovery.
  datatype Call = Read | ReadAccessor | Load(addresses: Addresses) | Rediscover(found: Option<Endpoint>)

  /** The addresses after a call; before the first one there may be none. */
  function Effect(current: Option<Addresses>, call: Call): Option<Addresses> {
    match call
    case Read => if current.None? then Some(DEFAULT_ADDRESSES) else current
    case ReadAccessor => if current.None? then Some(DEFAULT_ADDRESSES) else current
    case Load(a) => Some(a)
    case Rediscover(found) => if found.Some? then Some(AddressesOf(found.value)) else current
  }

  function EffectOf(current: Option<Addresses>, calls: seq<Call>): Option<Addresses>
    decreases |calls|
  {
    if calls == [] then current else EffectOf(Effect(current, calls[0]), calls[1..])
  }

  class ConfigStore {
    var global: AgentConfig?
    var accessor: Config?

    /** The cached accessor is absent or wraps the current configuration. */
    ghost predicate Valid()
      reads this, accessor
    {
      accessor != null ==> global != null && accessor.config == global
    }

    function Current(): Option<Addresses>
      reads this, global
    {
      if global == null then None else Some(global.View())
    }

    constructor ()
      ensures Valid() && Current() == None && accessor == null && global == null
    {
      global, accessor := null, null;
    }

    /** get_config. */
    method GetConfig() returns (c: AgentConfig)
      requires Valid()
      modifies this`global
      ensures Valid() && c == global && Current() == Effect(old(Current()), Read)
      ensures old(global) != null ==> c == old(global)
      ensures old(global) == null ==> fresh(c)
    {
      if global == null {
        global := new AgentConfig(DEFAULT_ADDRESSES);
      }
      c := global;
    }

    /** set_config. */
    method SetConfig(c: AgentConfig)
      modifies this
      ensures Valid() && global == c && accessor != null && fresh(accessor)
    {
      global := c;
      accessor := new Config(c);
    }

    /** update_tenant_url_in_memory. */
    method UpdateTenantUrl(e: Endpoint) returns (base: string)
      requires Valid()
      modifies this, global
      ensures Valid() && base == BaseUrl(e) && Current() == Some(AddressesOf(e)) && accessor == null
      ensures old(global) != null ==> global == old(global)
      ensures old(global) == null ==> fresh(global)
    {
      var c := GetConfig();
      base := BaseUrl(e);
      c.backendUrl := base;
      c.wsUrl := "ws://" + e.ip + ":" + Decimal(e.port) + "/ws/agent";
      c.platformApiUrl := "http://" + e.ip + ":" + Decimal(e.port) + "/api";
      accessor := null;
    }

    /** get_config_accessor. */
    method GetConfigAccessor() returns (a: Config)
      requires Valid()
      modifies this
      ensures Valid() && a == accessor && a.config == global && Current() == Effect(old(Current()), ReadAccessor)
      ensures global != null && a.WsUrl() == global.wsUrl
      ensures old(global) != null ==> global == old(global)
      ensures old(global) == null ==> fresh(global)
    {
      if accessor == null {
        var c := GetConfig();
        accessor := new Config(c);
      }
      a := accessor;
    }

    /** rediscover, given what discover() heard. */
    method RediscoverTenant(found: Option<Endpoint>) returns (url: Option<string>)
      requires Valid()
      modifies this, global
      ensures Valid() && Current() == Effect(old(Current()), Rediscover(found))
      ensures url == if found.Some? then Some(BaseUrl(found.value)) else None
      ensures old(global) != null ==> global == old(global)
      ensures old(global) == null && global != null ==> fresh(global)
    {
      if found.None? {
        return None;
      }
      var base := UpdateTenantUrl(found.value);
      return Some(base);
    }

    /** Any sequence of calls. */
    method Drive(calls: seq<Call>)
      requires Valid()
      modifies this, global
      ensures Valid() && Current() == EffectOf(old(Current()), calls)
    {
      for i := 0 to |calls|
        invariant Valid()
        invariant EffectOf(old(Current()), calls) == EffectOf(Current(), calls[i..])
        invariant global == null || global == old(global) || fresh(global)
      {
        assert calls[i..][1..] == calls[i + 1..];
        match calls[i]
        case Read => var _ := GetConfig();
        case ReadAccessor => var _ := GetConfigAccessor();
        case Load(a) =>
          var c := new AgentConfig(a);
          SetConfig(c);
        case Rediscover(found) => var _ := RediscoverTenant(found);
      }
    }
  }

  /** The calls after the last one that gave an address only read. */
  predicate OnlyReads(calls: seq<Call>) {
    forall c | c in calls :: c.Read? || c.ReadAccessor? || c == Rediscover(None)
  }

  lemma {:induction false} EffectOfAppend(current: Option<Addresses>, a: seq<Call>, b: seq<Call>)
    ensures EffectOf(current, a + b) == EffectOf(EffectOf(current, a), b)
    decreases |a|
  {
    if a == [] {
      assert a + b == b;
    } else {
      assert (a + b)[1..] == a[1..] + b;
      EffectOfAppend(Effect(current, a[0]), a[1..], b);
    }
  }

  lemma {:induction false} ReadsKeep(addresses: Addresses, calls: seq<Call>)
    requires OnlyReads(calls)
    ensures EffectOf(Some(addresses), calls) == Some(addresses)
    decreases |calls|
  {
    if calls != [] { ReadsKeep(addresses, calls[1..]); }
  }

  /** Whatever happened before, the cell holds the address of the latest successful discovery until the next load. */
  lemma LatestDiscoveryWins(current: Option<Addresses>, before: seq<Call>, e: Endpoint, since: seq<Call>)
    requires OnlyReads(since)
    ensures EffectOf(current, before + [Rediscover(Some(e))] + since) == Some(AddressesOf(e))
  {
    EffectOfAppend(current, before + [Rediscover(Some(e))], since);
    EffectOfAppend(current, before, [Rediscover(Some(e))]);
    ReadsKeep(AddressesOf(e), since);
  }

  // ---------- the addresses ----------

  /** Reading decimal digits. */
  function Parsed(s: string): int {
    if s == "" then 0 else 10 * Parsed(s[..|s| - 1]) + (s[|s| - 1] as int - '0' as int)
  }

  /** The digits of a number are decimal digits, read back as the number, and begin with a zero for zero only. */
  lemma {:induction false} DigitsExactly(n: nat)
    ensures Digits(n) != "" && forall i | 0 <= i < |Digits(n)| :: '0' <= Digits(n)[i] <= '9'
    ensures Parsed(Digits(n)) == n
    ensures Digits(n)[0] == '0' ==> n == 0 && |Digits(n)| == 1
  {
    var last := ('0' as int + n % 10) as char;
    if n >= 10 {
      DigitsExactly(n / 10);
      assert Digits(n)[..|Digits(n)| - 1] == Digits(n / 10);
    } else {
      assert Digits(n)[..0] == "";
    }
    assert Digits(n)[|Digits(n)| - 1] == last;
  }

  predicate IsDecimal(s: string) {
    s != "" && (forall i | 0 <= i < |s| :: '0' <= s[i] <= '9') && (s[0] == '0' ==> |s| == 1)
  }

  lemma OneMoreDigit(n: nat, d: nat)
    requires n > 0 && d < 10
    ensures Digits(10 * n + d) == Digits(n) + [('0' as int + d) as char]
  {
    assert (10 * n + d) / 10 == n && (10 * n + d) % 10 == d;
  }

  /** And no other text without a leading zero is read as the number. */
  lemma {:induction false} DigitsAreTheOnly(s: string)
    requires IsDecimal(s)
    ensures Parsed(s) >= 0 && s == Digits(Parsed(s)) && (Parsed(s) == 0 ==> s == "0")
    decreases |s|
  {
    var front, last := s[..|s| - 1], s[|s| - 1];
    assert s == front + [last];
    if |s| > 1 {
      DigitsAreTheOnly(front);
      OneMoreDigit(Parsed(front), last as int - '0' as int);
      hide Digits;
    }
  }

  /** A port is written in decimal digits, after a minus sign exactly when it is negative. */
  lemma DecimalExactly(n: int)
    ensures Decimal(n) != "" && (Decimal(n)[0] == '-' <==> n < 0)
    ensures if n < 0 then IsDecimal(Decimal(n)[1..]) && Parsed(Decimal(n)[1..]) == -n else IsDecimal(Decimal(n)) && Parsed(Decimal(n)) == n
  {
    DigitsExactly(if n < 0 then -n else n);
    assert n < 0 ==> Decimal(n)[1..] == Digits(-n);
    hide Digits, Parsed;
  }

  lemma SomeDigits()
    ensures Digits(8060) == "8060"
  {
    assert Digits(80) == Digits(8) + Digits(0);
    assert Digits(806) == Digits(80) + Digits(6);
    assert Digits(8060) == Digits(806) + Digits(0);
  }

  /** The three addresses of one tenant, as they are written. */
  lemma AnExampleOfAddresses()
    ensures AddressesOf(Endpoint("10.0.0.7", 8060)) ==
      Addresses("http://10.0.0.7:8060", "ws://10.0.0.7:8060/ws/agent", "http://10.0.0.7:8060/api")
  {
    SomeDigits();
    hide Digits;
    assert BaseUrl(Endpoint("10.0.0.7", 8060)) == "http://10.0.0.7:8060";
  }

  /** A first read makes the default configuration; a load replaces whatever there was. */
  lemma FirstRead(current: Option<Addresses>, a: Addresses)
    ensures EffectOf(None, [Read]) ==
      Some(Addresses("http://localhost:8060", "ws://localhost:8060/ws/agent", "http://localhost:8060/api"))
    ensures EffectOf(None, [ReadAccessor]) == EffectOf(None, [Read])
    ensures EffectOf(current, [Load(a), Read]) == Some(a)
  {
    assert [Load(a), Read][1..] == [Read];
    assert EffectOf(Some(a), [Read]) == Some(a);
  }
}
