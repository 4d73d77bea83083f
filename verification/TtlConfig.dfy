/**
 * Cache lifetimes: one knob for the idle and one for the absolute time-to-live, each with a default, a
 * floor and per-tenant overrides.
 */
module TtlConfig {
  import opened Wrappers
  import opened Text

  type Secs = nat

  const IDLE_TTL: Secs := 300
  const ABSOLUTE_TTL: Secs := 28800
  const DEFAULT_MIN_IDLE_SECS: Secs := 1
  const DEFAULT_MIN_ABS_SECS: Secs := 1

  const ENV_IDLE_TTL := "BOTWORK_AUTH_BROKER_IDLE_TTL_SECS"
  const ENV_ABS_TTL := "BOTWORK_AUTH_BROKER_ABS_TTL_SECS"
  const ENV_MIN_IDLE := "BOTWORK_AUTH_BROKER_MIN_IDLE_SECS"
  const ENV_MIN_ABS := "BOTWORK_AUTH_BROKER_MIN_ABS_SECS"
  const ENV_TENANT_IDLE_PREFIX := "BOTWORK_AUTH_BROKER_TENANT_IDLE_"
  const ENV_TENANT_ABS_PREFIX := "BOTWORK_AUTH_BROKER_TENANT_ABS_"

  function Max(a: Secs, b: Secs): Secs {
    if a < b then b else a
  }

  function Raised(table: map<string, Secs>, floor: Secs): map<string, Secs> {
    map t | t in table :: Max(table[t], floor)
  }

  /** The value of one of the two knobs. */
  datatype Knob = Knob(preset: Secs, floor: Secs, overrides: map<string, Secs>) {
    /** The stored value: the tenant's override, else the default. */
    function Stored(tenant: string): Secs {
      if tenant in overrides then overrides[tenant] else preset
    }

    function For(tenant: string): Secs {
      Max(Stored(tenant), floor)
    }

    /** Every stored value raised to the floor. */
    function Normalised(): Knob {
      Knob(Max(preset, floor), floor, Raised(overrides, floor))
    }

    predicate Normal() {
      floor <= preset && forall t :: t in overrides ==> floor <= overrides[t]
    }
  }

  // --- What a sequence of builder calls means ---

  datatype Call = SetDefault(ttl: Secs) | SetFloor(ttl: Secs) | SetTenant(tenant: string, ttl: Secs)

  function Apply(k: Knob, c: Call): Knob {
    match c
    case SetDefault(ttl) => k.(preset := ttl).Normalised()
    case SetFloor(ttl) => k.(floor := ttl).Normalised()
    case SetTenant(t, ttl) => k.(overrides := k.overrides[t := ttl]).Normalised()
  }

  function Run(k: Knob, calls: seq<Call>): Knob {
    if calls == [] then k else Apply(Run(k, calls[..|calls| - 1]), calls[|calls| - 1])
  }

  /** The floor in force after `calls`, starting from `floor`. */
  function FloorAfter(floor: Secs, calls: seq<Call>): Secs {
    if calls == [] then floor
    else
      var last := calls[|calls| - 1];
      if last.SetFloor? then last.ttl else FloorAfter(floor, calls[..|calls| - 1])
  }

  /** The largest floor in force at any point from just before `calls` to just after them. */
  function HighestFloor(floor: Secs, calls: seq<Call>): Secs {
    if calls == [] then floor
    else
      var last := calls[|calls| - 1];
      var before := HighestFloor(floor, calls[..|calls| - 1]);
      if last.SetFloor? then Max(before, last.ttl) else before
  }

  predicate Sets(c: Call, tenant: Option<string>) {
    match tenant
    case Some(t) => c.SetTenant? && c.tenant == t
    case None => c.SetDefault?
  }

  /** The position of the last call that set the tenant's override (or, for None, the default). */
  function LastSet(calls: seq<Call>, tenant: Option<string>): (r: Option<nat>)
    ensures r.Some? ==> r.value < |calls| && Sets(calls[r.value], tenant)
    ensures forall i | 0 <= i < |calls| && Sets(calls[i], tenant) :: r.Some? && i <= r.value
  {
    if calls == [] then None
    else if Sets(calls[|calls| - 1], tenant) then Some(|calls| - 1)
    else LastSet(calls[..|calls| - 1], tenant)
  }

  /**
   * The value last set, raised to every floor in force from that setting onward; `initial` if it was
   * never set.
   */
  function Ratcheted(floor: Secs, initial: Secs, calls: seq<Call>, tenant: Option<string>): Secs {
    match LastSet(calls, tenant)
    case Some(i) => Max(calls[i].ttl, HighestFloor(FloorAfter(floor, calls[..i]), calls[i + 1..]))
    case None => Max(initial, HighestFloor(floor, calls))
  }

  lemma {:induction false} FloorOfRun(k: Knob, calls: seq<Call>)
    requires k.Normal()
    ensures Run(k, calls).floor == FloorAfter(k.floor, calls)
    ensures Run(k, calls).Normal()
  {
    if calls != [] {
      FloorOfRun(k, calls[..|calls| - 1]);
    }
  }

  lemma HighestFloorStep(floor: Secs, calls: seq<Call>, c: Call)
    ensures HighestFloor(floor, calls + [c])
         == if c.SetFloor? then Max(HighestFloor(floor, calls), c.ttl) else HighestFloor(floor, calls)
  {
    assert (calls + [c])[..|calls|] == calls;
  }

  lemma LastSetStep(calls: seq<Call>, c: Call, tenant: Option<string>)
    ensures LastSet(calls + [c], tenant) == if Sets(c, tenant) then Some(|calls|) else LastSet(calls, tenant)
  {
    assert (calls + [c])[..|calls|] == calls;
  }

  lemma SnocSlices(calls: seq<Call>, c: Call, i: nat)
    requires i <= |calls|
    ensures (calls + [c])[..i] == calls[..i] && (calls + [c])[i..] == calls[i..] + [c]
  {
  }

  lemma RatchetedStep(floor: Secs, initial: Secs, calls: seq<Call>, c: Call, tenant: Option<string>)
    ensures Ratcheted(floor, initial, calls + [c], tenant)
         == if Sets(c, tenant) then Max(c.ttl, FloorAfter(floor, calls))
            else if c.SetFloor? then Max(Ratcheted(floor, initial, calls, tenant), c.ttl)
            else Ratcheted(floor, initial, calls, tenant)
  {
    LastSetStep(calls, c, tenant);
    if Sets(c, tenant) {
      SnocSlices(calls, c, |calls|);
      assert calls[..|calls|] == calls && (calls + [c])[|calls| + 1..] == [];
    } else {
      match LastSet(calls, tenant)
      case Some(i) =>
        SnocSlices(calls, c, i + 1);
        SnocSlices(calls, c, i);
        HighestFloorStep(FloorAfter(floor, calls[..i]), calls[i + 1..], c);
      case None =>
        HighestFloorStep(floor, calls, c);
    }
  }

  /** One knob, one tenant: what is stored after the calls is the ratcheted value. */
  lemma {:induction false} StoredAfterCalls(k: Knob, calls: seq<Call>, tenant: string)
    requires k.Normal()
    ensures var r := Run(k, calls);
            && r.preset == Ratcheted(k.floor, k.preset, calls, None)
            && (tenant in r.overrides <==> tenant in k.overrides || LastSet(calls, Some(tenant)).Some?)
            && (tenant in r.overrides && tenant in k.overrides ==>
                  r.overrides[tenant] == Ratcheted(k.floor, k.overrides[tenant], calls, Some(tenant)))
            && (tenant in r.overrides && tenant !in k.overrides ==>
                  r.overrides[tenant] == Ratcheted(k.floor, 0, calls, Some(tenant)))
  {
    if calls != [] {
      var init, c := calls[..|calls| - 1], calls[|calls| - 1];
      assert calls == init + [c];
      StoredAfterCalls(k, init, tenant);
      FloorOfRun(k, init);
      RatchetedStep(k.floor, k.preset, init, c, None);
      RatchetedStep(k.floor, if tenant in k.overrides then k.overrides[tenant] else 0, init, c, Some(tenant));
    }
  }

  /**
   * After any sequence of builder calls a tenant's effective lifetime is the last value set for it (or,
   * with no override, the default) raised to every floor in force from that setting onward. Lowering a
   * floor later does not undo an earlier raise.
   */
  lemma EffectiveAfterCalls(k: Knob, calls: seq<Call>, tenant: string)
    requires k.Normal()
    ensures Run(k, calls).For(tenant)
         == if tenant in k.overrides then Ratcheted(k.floor, k.overrides[tenant], calls, Some(tenant))
            else if LastSet(calls, Some(tenant)).Some? then Ratcheted(k.floor, 0, calls, Some(tenant))
            else Ratcheted(k.floor, k.preset, calls, None)
  {
    StoredAfterCalls(k, calls, tenant);
    FloorOfRun(k, calls);
  }

  // --- Loading from the environment ---

  function Digits(s: string): Option<nat> {
    if s == "" then Some(0)
    else
      var c := s[|s| - 1];
      match Digits(s[..|s| - 1])
      case Some(n) => if '0' <= c <= '9' then Some(10 * n + (c as int - 48)) else None
      case None => None
  }

  /** `parse::<u64>`: an optional plus sign, at least one digit, no overflow. */
  function ParseU64(s: string): Option<nat> {
    var digits := if "+" <= s then s[1..] else s;
    if digits == "" then None
    else
      match Digits(digits)
      case Some(n) => if n < 0x1_0000_0000_0000_0000 then Some(n) else None
      case None => None
  }

  /** Zero is refused along with everything that is not a number. */
  function ParseSecs(raw: string): Option<Secs> {
    match ParseU64(raw)
    case Some(n) => if n == 0 then None else Some(n)
    case None => None
  }

  /** The variable's value, or `preset` when it is absent or refused. */
  function SecsOr(lookup: string -> Option<string>, key: string, preset: Secs): Secs {
    match lookup(key)
    case Some(raw) => (match ParseSecs(raw) case Some(n) => n case None => preset)
    case None => preset
  }

  function StripPrefixToTenant(key: string, prefix: string): Option<string> {
    if prefix < key then Some(Replace(Lower(key[|prefix|..]), '_', "-")) else None
  }

  /** The override one environment variable contributes to the knob with this prefix. */
  function Override(kv: (string, string), prefix: string): Option<(string, Secs)> {
    match (StripPrefixToTenant(kv.0, prefix), ParseSecs(kv.1))
    case (Some(t), Some(n)) => Some((t, n))
    case _ => None
  }

  /** The decimal digits of a number. */
  function Decimal(n: nat): string {
    if n < 10 then ["0123456789"[n]] else Decimal(n / 10) + ["0123456789"[n % 10]]
  }

  predicate Zeros(s: string) {
    forall i :: 0 <= i < |s| ==> s[i] == '0'
  }

  lemma DigitsSnoc(s: string, c: char)
    ensures Digits(s + [c]) == if Digits(s).Some? && '0' <= c <= '9' then Some(10 * Digits(s).value + (c as int - 48)) else None
  {
    assert (s + [c])[..|s|] == s;
  }

  lemma {:induction false} DecimalReads(zeros: string, n: nat)
    requires Zeros(zeros)
    ensures Digits(zeros + Decimal(n)) == Some(n)
  {
    if n < 10 {
      ZerosRead(zeros);
      DigitsSnoc(zeros, "0123456789"[n]);
    } else {
      DecimalReads(zeros, n / 10);
      DigitsSnoc(zeros + Decimal(n / 10), "0123456789"[n % 10]);
      assert zeros + Decimal(n) == zeros + Decimal(n / 10) + ["0123456789"[n % 10]];
    }
  }

  lemma {:induction false} ZerosRead(zeros: string)
    requires Zeros(zeros)
    ensures Digits(zeros) == Some(0)
  {
    if zeros != "" {
      ZerosRead(zeros[..|zeros| - 1]);
    }
  }

  /** What reads as a number is its decimal digits after some zeros. */
  lemma {:induction false} ReadIsDecimal(s: string) returns (zeros: string)
    requires s != "" && Digits(s).Some?
    ensures Zeros(zeros) && s == zeros + Decimal(Digits(s).value)
  {
    hide Decimal;
    var init, c := s[..|s| - 1], s[|s| - 1];
    assert s == init + [c];
    DigitsSnoc(init, c);
    var n, digit := Digits(init).value, c as int - 48;
    DecimalSnoc(n, c);
    if n == 0 {
      zeros := init;
      NoughtIsZeros(init);
    } else {
      zeros := ReadIsDecimal(init);
      assert zeros + (Decimal(n) + [c]) == s;
    }
  }

  lemma DecimalSnoc(n: nat, c: char)
    requires '0' <= c <= '9'
    ensures Decimal(10 * n + (c as int - 48)) == if n == 0 then [c] else Decimal(n) + [c]
  {
    var digit := c as int - 48;
    assert "0123456789"[digit] == c by { DigitChar(c); }
    assert (10 * n + digit) / 10 == n && (10 * n + digit) % 10 == digit;
  }

  lemma DigitChar(c: char)
    requires '0' <= c <= '9'
    ensures "0123456789"[c as int - 48] == c
  {
  }

  lemma {:induction false} NoughtIsZeros(s: string)
    requires Digits(s) == Some(0)
    ensures Zeros(s)
  {
    if s != "" {
      NoughtIsZeros(s[..|s| - 1]);
    }
  }

  /**
   * A text is read as `n` seconds exactly when it is `n` in decimal, perhaps after zeros and a plus sign, and `n` is
   * neither zero nor too large for 64 bits.
   */
  lemma SecondsRead(raw: string, n: nat)
    ensures ParseSecs(raw) == Some(n)
       <==> 0 < n < 0x1_0000_0000_0000_0000
            && exists zeros :: Zeros(zeros) && (raw == zeros + Decimal(n) || raw == "+" + (zeros + Decimal(n)))
  {
    hide Digits, Decimal, Zeros;
    if ParseSecs(raw) == Some(n) {
      var digits := if "+" <= raw then raw[1..] else raw;
      var zeros := ReadIsDecimal(digits);
      assert raw == zeros + Decimal(n) || raw == "+" + (zeros + Decimal(n));
    }
    if zeros :| Zeros(zeros) && (raw == zeros + Decimal(n) || raw == "+" + (zeros + Decimal(n))) {
      DecimalReads(zeros, n);
      DecimalStarts(zeros, n);
    }
  }

  lemma {:induction false} DecimalStarts(zeros: string, n: nat)
    requires Zeros(zeros)
    ensures var s := zeros + Decimal(n); s != "" && s[0] != '+' && ("+" + s)[1..] == s
  {
    if zeros == "" && n >= 10 {
      DecimalStarts(zeros, n / 10);
      assert Decimal(n)[0] == Decimal(n / 10)[0];
    }
  }

  /** A variable's name gives the rest of it after the prefix, character by character: small letters, and dashes for underscores. */
  lemma TenantRecovered(key: string, prefix: string, t: string)
    ensures StripPrefixToTenant(key, prefix) == Some(t)
       <==> prefix < key && |t| == |key| - |prefix|
            && forall i :: 0 <= i < |t| ==>
                 var c := key[|prefix| + i];
                 t[i] == if c == '_' then '-' else if 'A' <= c <= 'Z' then (c as int + 32) as char else c
  {
    if prefix < key {
      var suffix := key[|prefix|..];
      var lower := Lower(suffix);
      ReplaceOneByOne(lower, '_', '-');
      var r := Replace(lower, '_', "-");
      assert forall i :: 0 <= i < |r| ==> suffix[i] == key[|prefix| + i] && lower[i] == LowerChar(suffix[i]);
      if |t| == |r| && forall i :: 0 <= i < |t| ==> t[i] == r[i] {
        assert t == r;
      }
    }
  }

  /** The knob's two variables are read where they hold a number, and every tenant gets its loaded value or the default, floored. */
  lemma LoadedMeans(lookup: string -> Option<string>, envDefault: string, envFloor: string, preset: Secs, floor: Secs,
                    overrides: map<string, Secs>, t: string)
    ensures var k := Loaded(lookup, envDefault, envFloor, preset, floor, overrides);
            var standard := if lookup(envDefault).Some? && ParseSecs(lookup(envDefault).value).Some? then ParseSecs(lookup(envDefault).value).value
                        else preset;
            var least := if lookup(envFloor).Some? && ParseSecs(lookup(envFloor).value).Some? then ParseSecs(lookup(envFloor).value).value
                         else floor;
            var wanted := if t in overrides then overrides[t] else standard;
            k.floor == least && k.For(t) == if wanted >= least then wanted else least
  {
    hide ParseSecs;
  }

  /** The per-tenant table after visiting the variables in the given order. */
  function Load(vars: seq<(string, string)>, prefix: string): map<string, Secs> {
    if vars == [] then map[]
    else
      var before := Load(vars[..|vars| - 1], prefix);
      match Override(vars[|vars| - 1], prefix)
      case Some((t, n)) => before[t := n]
      case None => before
  }

  function Loaded(lookup: string -> Option<string>, envDefault: string, envFloor: string,
                  preset: Secs, floor: Secs, overrides: map<string, Secs>): Knob
  {
    Knob(SecsOr(lookup, envDefault, preset), SecsOr(lookup, envFloor, floor), overrides).Normalised()
  }

  /** `vars` visits each variable of the environment once, in some order. */
  predicate Enumerates(vars: seq<(string, string)>, env: map<string, string>) {
    && (forall i :: 0 <= i < |vars| ==> vars[i].0 in env && env[vars[i].0] == vars[i].1)
    && (forall k :: k in env ==> (k, env[k]) in vars)
    && (forall i, j :: 0 <= i < j < |vars| ==> vars[i].0 != vars[j].0)
  }

  /** Two variables name the same tenant with lifetimes that differ once raised to the floor. */
  predicate Clash(env: map<string, string>, prefix: string, floor: Secs, a: string, b: string) {
    && a in env && b in env
    && var x, y := Override((a, env[a]), prefix), Override((b, env[b]), prefix);
    && x.Some? && y.Some? && x.value.0 == y.value.0 && Max(x.value.1, floor) != Max(y.value.1, floor)
  }

  /** Every loaded value is contributed by some visited variable. */
  lemma {:induction false} LoadedFrom(vars: seq<(string, string)>, prefix: string, t: string) returns (i: nat)
    requires t in Load(vars, prefix)
    ensures i < |vars| && Override(vars[i], prefix) == Some((t, Load(vars, prefix)[t]))
  {
    i := |vars| - 1;
    if Override(vars[i], prefix).None? || Override(vars[i], prefix).value.0 != t {
      i := LoadedFrom(vars[..i], prefix, t);
    }
  }

  /** Every visited variable that contributes is loaded. */
  lemma {:induction false} LoadedInto(vars: seq<(string, string)>, prefix: string, i: nat)
    requires i < |vars| && Override(vars[i], prefix).Some?
    ensures Override(vars[i], prefix).value.0 in Load(vars, prefix)
  {
    if i < |vars| - 1 {
      LoadedInto(vars[..|vars| - 1], prefix, i);
    }
  }

  lemma LoadAgrees(env: map<string, string>, prefix: string, floor: Secs, xs: seq<(string, string)>, ys: seq<(string, string)>,
                   t: string)
    requires forall a, b :: !Clash(env, prefix, floor, a, b)
    requires Enumerates(xs, env) && Enumerates(ys, env)
    requires t in Load(xs, prefix)
    ensures t in Load(ys, prefix) && Max(Load(ys, prefix)[t], floor) == Max(Load(xs, prefix)[t], floor)
  {
    var i := LoadedFrom(xs, prefix, t);
    assert (xs[i].0, env[xs[i].0]) in ys;
    var j :| 0 <= j < |ys| && ys[j] == xs[i];
    LoadedInto(ys, prefix, j);
    var k := LoadedFrom(ys, prefix, t);
    assert !Clash(env, prefix, floor, xs[i].0, ys[k].0);
  }

  lemma LoadOrderFree(env: map<string, string>, prefix: string, floor: Secs, xs: seq<(string, string)>, ys: seq<(string, string)>)
    requires forall a, b :: !Clash(env, prefix, floor, a, b)
    requires Enumerates(xs, env) && Enumerates(ys, env)
    ensures Raised(Load(xs, prefix), floor) == Raised(Load(ys, prefix), floor)
  {
    forall t | t in Load(xs, prefix)
      ensures t in Load(ys, prefix) && Max(Load(ys, prefix)[t], floor) == Max(Load(xs, prefix)[t], floor)
    {
      LoadAgrees(env, prefix, floor, xs, ys, t);
    }
    forall t | t in Load(ys, prefix)
      ensures t in Load(xs, prefix)
    {
      LoadAgrees(env, prefix, floor, ys, xs, t);
    }
  }

  lemma EnumerateOneMore(vars: seq<(string, string)>, env: map<string, string>, k: string)
    requires k in env && Enumerates(vars, env - {k})
    ensures Enumerates(vars + [(k, env[k])], env)
  {
    var all := vars + [(k, env[k])];
    assert all[|vars|] == (k, env[k]);
    forall x | x in env
      ensures (x, env[x]) in all
    {
      if x != k {
        assert (x, (env - {k})[x]) in vars;
      }
    }
    assert forall i :: 0 <= i < |vars| ==> vars[i].0 in env - {k};
  }

  /** Some order in which a hash map may be visited. */
  lemma {:induction false} AnyOrder(env: map<string, string>) returns (vars: seq<(string, string)>)
    ensures Enumerates(vars, env)
    decreases |env|
  {
    vars := [];
    if env != map[] {
      var k :| k in env;
      vars := AnyOrder(env - {k});
      EnumerateOneMore(vars, env, k);
      vars := vars + [(k, env[k])];
    }
  }

  lemma LoadLast(vars: seq<(string, string)>, kv: (string, string), prefix: string)
    requires Override(kv, prefix).Some?
    ensures Load(vars + [kv], prefix) == Load(vars, prefix)[Override(kv, prefix).value.0 := Override(kv, prefix).value.1]
  {
    assert (vars + [kv])[..|vars|] == vars;
  }

  /** With two variables set apart, each order of the two at the end is a listing. */
  lemma TwoListings(env: map<string, string>, a: string, b: string) returns (rest: seq<(string, string)>)
    requires a != b && a in env && b in env
    ensures Enumerates(rest + [(a, env[a])] + [(b, env[b])], env)
    ensures Enumerates(rest + [(b, env[b])] + [(a, env[a])], env)
  {
    hide Enumerates;
    rest := AnyOrder(env - {a} - {b});
    assert env - {a} - {b} == env - {b} - {a};
    EnumerateOneMore(rest, env - {b}, a);
    EnumerateOneMore(rest, env - {a}, b);
    EnumerateOneMore(rest + [(a, env[a])], env, b);
    EnumerateOneMore(rest + [(b, env[b])], env, a);
  }

  lemma ClashShows(env: map<string, string>, prefix: string, floor: Secs, a: string, b: string)
    returns (xs: seq<(string, string)>, ys: seq<(string, string)>, t: string)
    requires Clash(env, prefix, floor, a, b)
    ensures Enumerates(xs, env) && Enumerates(ys, env)
    ensures t in Load(xs, prefix) && t in Load(ys, prefix) && Max(Load(xs, prefix)[t], floor) != Max(Load(ys, prefix)[t], floor)
  {
    hide Enumerates, Load, Override;
    var p, q := (a, env[a]), (b, env[b]);
    var rest := TwoListings(env, a, b);
    xs, ys := rest + [p] + [q], rest + [q] + [p];
    LoadLast(rest + [p], q, prefix);
    LoadLast(rest + [q], p, prefix);
    t := Override(p, prefix).value.0;
  }

  /**
   * What is loaded does not depend on the order in which the environment is visited exactly when no two variables
   * clash at the floor that is loaded with them; and neither then do the lifetimes the tenants get.
   */
  lemma OrderIrrelevantIff(lookup: string -> Option<string>, envDefault: string, envFloor: string, preset: Secs, floor: Secs,
                           env: map<string, string>, prefix: string)
    ensures (forall xs, ys | Enumerates(xs, env) && Enumerates(ys, env) ::
               Loaded(lookup, envDefault, envFloor, preset, floor, Load(xs, prefix))
               == Loaded(lookup, envDefault, envFloor, preset, floor, Load(ys, prefix)))
       <==> (forall a, b :: !Clash(env, prefix, SecsOr(lookup, envFloor, floor), a, b))
    ensures (forall xs, ys, t | Enumerates(xs, env) && Enumerates(ys, env) ::
               Loaded(lookup, envDefault, envFloor, preset, floor, Load(xs, prefix)).For(t)
               == Loaded(lookup, envDefault, envFloor, preset, floor, Load(ys, prefix)).For(t))
       <==> (forall a, b :: !Clash(env, prefix, SecsOr(lookup, envFloor, floor), a, b))
  {
    hide Enumerates, Load, Clash, SecsOr;
    var least := SecsOr(lookup, envFloor, floor);
    if forall a, b :: !Clash(env, prefix, least, a, b) {
      forall xs, ys | Enumerates(xs, env) && Enumerates(ys, env)
        ensures Loaded(lookup, envDefault, envFloor, preset, floor, Load(xs, prefix))
                == Loaded(lookup, envDefault, envFloor, preset, floor, Load(ys, prefix))
      {
        LoadOrderFree(env, prefix, least, xs, ys);
        LoadedIsRaised(lookup, envDefault, envFloor, preset, floor, Load(xs, prefix));
        LoadedIsRaised(lookup, envDefault, envFloor, preset, floor, Load(ys, prefix));
      }
    } else {
      var a, b :| Clash(env, prefix, least, a, b);
      var xs, ys, t := ClashShows(env, prefix, least, a, b);
      assert Loaded(lookup, envDefault, envFloor, preset, floor, Load(xs, prefix)).For(t)
          != Loaded(lookup, envDefault, envFloor, preset, floor, Load(ys, prefix)).For(t);
    }
  }

  lemma LoadedIsRaised(lookup: string -> Option<string>, envDefault: string, envFloor: string, preset: Secs, floor: Secs,
                       overrides: map<string, Secs>)
    ensures var k := Loaded(lookup, envDefault, envFloor, preset, floor, overrides);
            var least := SecsOr(lookup, envFloor, floor);
            k == Knob(Max(SecsOr(lookup, envDefault, preset), least), least, Raised(overrides, least))
  {
    hide SecsOr;
  }

  /** The table as it is filled, before anything is raised, does not depend on the order exactly when no two variables clash at all. */
  lemma TableOrderIrrelevantIff(env: map<string, string>, prefix: string)
    ensures (forall xs, ys | Enumerates(xs, env) && Enumerates(ys, env) :: Load(xs, prefix) == Load(ys, prefix))
       <==> (forall a, b :: !Clash(env, prefix, 0, a, b))
  {
    hide Enumerates, Load, Clash;
    if forall a, b :: !Clash(env, prefix, 0, a, b) {
      forall xs, ys | Enumerates(xs, env) && Enumerates(ys, env)
        ensures Load(xs, prefix) == Load(ys, prefix)
      {
        LoadOrderFree(env, prefix, 0, xs, ys);
        assert Raised(Load(xs, prefix), 0) == Load(xs, prefix) && Raised(Load(ys, prefix), 0) == Load(ys, prefix);
      }
    } else {
      var a, b :| Clash(env, prefix, 0, a, b);
      var xs, ys, t := ClashShows(env, prefix, 0, a, b);
      assert Load(xs, prefix)[t] != Load(ys, prefix)[t];
    }
  }

  lemma PrefixesDisjoint(key: string)
    ensures !(ENV_TENANT_IDLE_PREFIX <= key && ENV_TENANT_ABS_PREFIX <= key)
  {
    assert ENV_TENANT_IDLE_PREFIX[27] == 'I' && ENV_TENANT_ABS_PREFIX[27] == 'A';
  }

  /** The configuration object. */
  class Config {
    var defaultIdle: Secs
    var defaultAbsolute: Secs
    var minIdle: Secs
    var minAbsolute: Secs
    var perTenantIdle: map<string, Secs>
    var perTenantAbsolute: map<string, Secs>

    ghost function Idle(): Knob
      reads this
    {
      Knob(defaultIdle, minIdle, perTenantIdle)
    }

    ghost function Absolute(): Knob
      reads this
    {
      Knob(defaultAbsolute, minAbsolute, perTenantAbsolute)
    }

    ghost predicate Valid()
      reads this
    {
      Idle().Normal() && Absolute().Normal()
    }

    constructor Default()
      ensures Valid()
      ensures Idle() == Knob(IDLE_TTL, DEFAULT_MIN_IDLE_SECS, map[])
      ensures Absolute() == Knob(ABSOLUTE_TTL, DEFAULT_MIN_ABS_SECS, map[])
    {
      defaultIdle, defaultAbsolute := IDLE_TTL, ABSOLUTE_TTL;
      minIdle, minAbsolute := DEFAULT_MIN_IDLE_SECS, DEFAULT_MIN_ABS_SECS;
      perTenantIdle, perTenantAbsolute := map[], map[];
    }

    function IdleFor(tenant: string): (ttl: Secs)
      reads this
      ensures ttl == Idle().For(tenant) && minIdle <= ttl
    {
      var raw := if tenant in perTenantIdle then perTenantIdle[tenant] else defaultIdle;
      Max(raw, minIdle)
    }

    function AbsoluteFor(tenant: string): (ttl: Secs)
      reads this
      ensures ttl == Absolute().For(tenant) && minAbsolute <= ttl
    {
      var raw := if tenant in perTenantAbsolute then perTenantAbsolute[tenant] else defaultAbsolute;
      Max(raw, minAbsolute)
    }

    method WithDefaultIdle(ttl: Secs)
      requires Valid()
      modifies this
      ensures Valid() && Idle() == Apply(old(Idle()), SetDefault(ttl)) && Absolute() == old(Absolute())
    {
      defaultIdle := ttl;
      Normalise();
    }

    method WithDefaultAbsolute(ttl: Secs)
      requires Valid()
      modifies this
      ensures Valid() && Absolute() == Apply(old(Absolute()), SetDefault(ttl)) && Idle() == old(Idle())
    {
      defaultAbsolute := ttl;
      Normalise();
    }

    method WithMinIdle(ttl: Secs)
      requires Valid()
      modifies this
      ensures Valid() && Idle() == Apply(old(Idle()), SetFloor(ttl)) && Absolute() == old(Absolute())
    {
      minIdle := ttl;
      Normalise();
    }

    method WithMinAbsolute(ttl: Secs)
      requires Valid()
      modifies this
      ensures Valid() && Absolute() == Apply(old(Absolute()), SetFloor(ttl)) && Idle() == old(Idle())
    {
      minAbsolute := ttl;
      Normalise();
    }

    method WithTenantIdle(tenant: string, ttl: Secs)
      requires Valid()
      modifies this
      ensures Valid() && Idle() == Apply(old(Idle()), SetTenant(tenant, ttl)) && Absolute() == old(Absolute())
    {
      perTenantIdle := perTenantIdle[tenant := ttl];
      Normalise();
    }

    method WithTenantAbsolute(tenant: string, ttl: Secs)
      requires Valid()
      modifies this
      ensures Valid() && Absolute() == Apply(old(Absolute()), SetTenant(tenant, ttl)) && Idle() == old(Idle())
    {
      perTenantAbsolute := perTenantAbsolute[tenant := ttl];
      Normalise();
    }

    /** Raise every stored value to its floor, walking the two tables in any order. */
    method Normalise()
      modifies this
      ensures Valid()
      ensures Idle() == old(Idle()).Normalised() && Absolute() == old(Absolute()).Normalised()
      ensures old(Idle()).Normal() ==> Idle() == old(Idle())
      ensures old(Absolute()).Normal() ==> Absolute() == old(Absolute())
    {
      perTenantIdle := RaiseAll(perTenantIdle, minIdle);
      perTenantAbsolute := RaiseAll(perTenantAbsolute, minAbsolute);
      if defaultIdle < minIdle {
        defaultIdle := minIdle;
      }
      if defaultAbsolute < minAbsolute {
        defaultAbsolute := minAbsolute;
      }
    }

    /** Read the knobs from `lookup` and the overrides from `vars`, the environment in iteration order. */
    method FromLookup(lookup: string -> Option<string>, vars: seq<(string, string)>)
      modifies this
      ensures Valid()
      ensures Idle() == Loaded(lookup, "BOTWORK_AUTH_BROKER_IDLE_TTL_SECS", "BOTWORK_AUTH_BROKER_MIN_IDLE_SECS", 300, 1,
                               Load(vars, "BOTWORK_AUTH_BROKER_TENANT_IDLE_"))
      ensures Absolute() == Loaded(lookup, "BOTWORK_AUTH_BROKER_ABS_TTL_SECS", "BOTWORK_AUTH_BROKER_MIN_ABS_SECS", 28800, 1,
                                   Load(vars, "BOTWORK_AUTH_BROKER_TENANT_ABS_"))
    {
      defaultIdle := SecsOr(lookup, ENV_IDLE_TTL, IDLE_TTL);
      defaultAbsolute := SecsOr(lookup, ENV_ABS_TTL, ABSOLUTE_TTL);
      minIdle := SecsOr(lookup, ENV_MIN_IDLE, DEFAULT_MIN_IDLE_SECS);
      minAbsolute := SecsOr(lookup, ENV_MIN_ABS, DEFAULT_MIN_ABS_SECS);
      LoadTables(vars);
      Normalise();
    }

    /** Fill the two override tables from the environment. */
    method LoadTables(vars: seq<(string, string)>)
      modifies this`perTenantIdle, this`perTenantAbsolute
      ensures perTenantIdle == Load(vars, ENV_TENANT_IDLE_PREFIX)
      ensures perTenantAbsolute == Load(vars, ENV_TENANT_ABS_PREFIX)
    {
      perTenantIdle, perTenantAbsolute := map[], map[];
      for i := 0 to |vars|
        invariant perTenantIdle == Load(vars[..i], ENV_TENANT_IDLE_PREFIX)
        invariant perTenantAbsolute == Load(vars[..i], ENV_TENANT_ABS_PREFIX)
      {
        var (key, value) := vars[i];
        assert vars[..i + 1][..i] == vars[..i];
        PrefixesDisjoint(key);
        var idle := StripPrefixToTenant(key, ENV_TENANT_IDLE_PREFIX);
        var absolute := StripPrefixToTenant(key, ENV_TENANT_ABS_PREFIX);
        if idle.Some? {
          var parsed := ParseSecs(value);
          if parsed.Some? {
            perTenantIdle := perTenantIdle[idle.value := parsed.value];
          }
        } else if absolute.Some? {
          var parsed := ParseSecs(value);
          if parsed.Some? {
            perTenantAbsolute := perTenantAbsolute[absolute.value := parsed.value];
          }
        }
      }
      assert vars[..|vars|] == vars;
    }
  }

  /** Walk a table, raising each value below the floor. */
  method RaiseAll(table: map<string, Secs>, floor: Secs) returns (raised: map<string, Secs>)
    ensures raised == Raised(table, floor)
  {
    raised := table;
    var left := table.Keys;
    while left != {}
      invariant left <= table.Keys == raised.Keys
      invariant forall t :: t in left ==> raised[t] == table[t]
      invariant forall t :: t in table && t !in left ==> raised[t] == Max(table[t], floor)
      decreases left
    {
      var t :| t in left;
      if raised[t] < floor {
        raised := raised[t := floor];
      }
      left := left - {t};
    }
  }
}
