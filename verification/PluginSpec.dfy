/** Validation and normalisation of one plugin entry, one binding's config and one package file. */
module PluginSpec {
  import opened Wrappers
  import opened Text

  // --- Parsed documents ---

  /** A parsed YAML value, tags aside. `Integer` holds the integers and `Fraction` every other number. */
  datatype Yaml =
    | YNull
    | YBool(b: bool)
    | Integer(n: int)
    | Fraction(digits: string)
    | YString(text: string)
    | Sequence(items: seq<Yaml>)
    | Mapping(entries: seq<(Yaml, Yaml)>)

  datatype Json =
    | JNull
    | JBool(b: bool)
    | JNumber(digits: string)
    | JString(text: string)
    | JArray(elements: seq<Json>)
    | JObject(fields: map<string, Json>)

  /** What the serialisation libraries contribute: YAML to JSON where it can be done, and the length of the text. */
  datatype Serde = Serde(toJson: Yaml -> Option<Json>, size: Json -> nat)

  // --- Plugins before and after validation ---

  datatype RawPlugin = RawPlugin(
    name: string, image: Option<string>, port: Option<nat>, path: Option<string>, upstreamAuth: Option<string>,
    env: Option<Yaml>, resources: Option<Yaml>, egress: Option<Yaml>, network: Option<Yaml>)

  datatype Resources = Resources(cpus: Option<string>, memory: Option<string>, pids: Option<nat>)

  datatype Rule = Rule(host: string, ports: seq<nat>)

  datatype Egress = Mode(all: bool) | Allow(rules: seq<Rule>)

  datatype Plugin = Plugin(
    name: string, image: string, port: nat, path: string, upstreamAuth: string,
    env: seq<(string, string)>, resources: Option<Resources>, egress: Egress)

  datatype Fault =
    | BadName | NetworkSet | NoImage | BadPort
    | EmptyPath | RelativePath | SpacedPath | QueryPath | SlashedPath
    | NoService | BadAuth
    | EnvShape | EnvTooMany | EnvKeyShape | EnvValueShape | EnvSecretName | EnvConfigName | EnvName | EnvTooLong | EnvTwice
    | ResourceShape | ResourceKeyShape | ResourceString | ResourcePids | ResourceKey
    | NoEgress | EgressWord | EgressShape | EgressMode | EgressNoAllow | EgressAllowShape | EgressKey | EgressTooLong
    | RuleShape | RuleKey | NoHost | HostShape | EmptyHost | SpacedHost | HostNotBare | WildHost
    | NoPorts | PortsShape | EmptyPorts | PortRange
    | ConfigShape | ConfigJson | ConfigTooLong
    | SpillThreshold | SpillMethods | SpillTools

  datatype ValidationError =
    | EmptyName(field: string)
    | PluginInvalid(plugin: string, detail: Fault)
    | BindingInvalid(context: string, fault: Fault)
    | PackageInvalid(package: string, rule: Fault)
    | DuplicatePlugin(name: string)
    | DuplicateTenant(tenant: string)
    | DuplicateWorkspace(inTenant: string, workspace: string)
    | DuplicateBinding(ofTenant: string, ofWorkspace: string, binding: string)
    | UnknownPluginRef(fromTenant: string, fromWorkspace: string, missing: string)

  const MAX_ENV_ENTRIES := 32
  const MAX_VALUE_BYTES := 65536
  const MAX_PORT := 65535
  const MAX_PIDS := 4294967295

  // --- Strings ---

  function Utf8Width(c: char): nat {
    if c as int < 0x80 then 1 else if c as int < 0x800 then 2 else if c as int < 0x10000 then 3 else 4
  }

  /** `str::len`: the number of UTF-8 bytes. */
  function ByteLength(s: string): nat {
    if s == "" then 0 else ByteLength(s[..|s| - 1]) + Utf8Width(s[|s| - 1])
  }

  predicate StartsWith(s: string, prefix: string) {
    prefix <= s
  }

  predicate HasWhitespace(s: string) {
    exists i :: 0 <= i < |s| && IsWhitespace(s[i])
  }

  predicate Contains(s: string, part: string) {
    exists i :: 0 <= i <= |s| && part <= s[i..]
  }

  // --- Name, image, port, path, upstream auth ---

  /** `^[a-z][a-z0-9-]{0,30}$` */
  predicate ValidName(name: string) {
    && 1 <= |name| <= 31 && 'a' <= name[0] <= 'z'
    && forall i :: 0 <= i < |name| ==> 'a' <= name[i] <= 'z' || '0' <= name[i] <= '9' || name[i] == '-'
  }

  predicate ValidPath(path: string) {
    && path != "" && path[0] == '/' && !HasWhitespace(path) && '?' !in path && '#' !in path
    && (path == "/" || path[|path| - 1] != '/')
  }

  function CheckPath(raw: Option<string>): Result<string, Fault> {
    if raw.None? then Ok("/")
    else
      var path := Trim(raw.value);
      if path == "" then Err(EmptyPath)
      else if path[0] != '/' then Err(RelativePath)
      else if HasWhitespace(path) then Err(SpacedPath)
      else if '?' in path || '#' in path then Err(QueryPath)
      else if path != "/" && path[|path| - 1] == '/' then Err(SlashedPath)
      else Ok(path)
  }

  predicate ValidAuth(auth: string) {
    || auth == "none"
    || (StartsWith(auth, "bearer/") && auth != "bearer/" && '/' !in auth[7..] && !HasWhitespace(auth[7..]))
  }

  function CheckAuth(raw: Option<string>): Result<string, Fault> {
    if raw.None? then Ok("none")
    else if raw.value == "none" then Ok("none")
    else if raw.value == "bearer" || raw.value == "bearer/" then Err(NoService)
    else if StartsWith(raw.value, "bearer/") then
      var service := raw.value[7..];
      if service == "" || '/' in service || HasWhitespace(service) then Err(BadAuth) else Ok("bearer/" + service)
    else Err(BadAuth)
  }

  // --- Env ---

  predicate EnvChar(c: char) {
    'A' <= c <= 'Z' || '0' <= c <= '9' || c == '_'
  }

  predicate ValidEnvName(name: string) {
    && name != "" && ('A' <= name[0] <= 'Z' || name[0] == '_')
    && (forall i :: 1 <= i < |name| ==> EnvChar(name[i]))
    && name != "PATH" && name != "LD_PRELOAD" && name != "LD_LIBRARY_PATH"
    && !StartsWith(name, "DOCKER_")
  }

  /** One entry, given the keys before it. */
  function CheckEnvEntry(entry: (Yaml, Yaml), seen: set<string>): Result<(string, string), Fault> {
    if !entry.0.YString? then Err(EnvKeyShape)
    else
      var key := entry.0.text;
      if !entry.1.YString? then Err(EnvValueShape)
      else if StartsWith(key, "BOTWORK_SECRET_") then Err(EnvSecretName)
      else if key == "BOTWORK_MCP_CONFIG" then Err(EnvConfigName)
      else if !ValidEnvName(key) then Err(EnvName)
      else if ByteLength(entry.1.text) > MAX_VALUE_BYTES then Err(EnvTooLong)
      else if key in seen then Err(EnvTwice)
      else Ok((key, entry.1.text))
  }

  function Keys(env: seq<(string, string)>): set<string> {
    set i | 0 <= i < |env| :: env[i].0
  }

  /** The entries in order; the first faulty one decides the error. */
  function CheckEntries(entries: seq<(Yaml, Yaml)>): Result<seq<(string, string)>, Fault> {
    if entries == [] then Ok([])
    else
      var init := CheckEntries(entries[..|entries| - 1]);
      if init.Err? then init
      else
        var last := CheckEnvEntry(entries[|entries| - 1], Keys(init.value));
        if last.Err? then Err(last.error) else Ok(init.value + [last.value])
  }

  function CheckEnv(raw: Option<Yaml>): Result<seq<(string, string)>, Fault> {
    if raw.None? || raw.value.YNull? then Ok([])
    else if !raw.value.Mapping? then Err(EnvShape)
    else if |raw.value.entries| > MAX_ENV_ENTRIES then Err(EnvTooMany)
    else CheckEntries(raw.value.entries)
  }

  /** What a validated env is: few enough, each name allowed and fitting, no name twice. */
  predicate ValidPair(pair: (string, string)) {
    && !StartsWith(pair.0, "BOTWORK_SECRET_") && pair.0 != "BOTWORK_MCP_CONFIG" && ValidEnvName(pair.0)
    && ByteLength(pair.1) <= MAX_VALUE_BYTES
  }

  predicate ValidEnv(env: seq<(string, string)>) {
    && |env| <= MAX_ENV_ENTRIES
    && (forall i :: 0 <= i < |env| ==> ValidPair(env[i]))
    && (forall i, j :: 0 <= i < j < |env| ==> env[i].0 != env[j].0)
  }

  // --- Resources ---

  function CheckString(value: Yaml): Option<string> {
    if value.YString? && value.text != "" then Some(value.text) else None
  }

  function CheckResource(entry: (Yaml, Yaml), out: Resources): Result<Resources, Fault> {
    if !entry.0.YString? then Err(ResourceKeyShape)
    else if entry.0.text == "cpus" then
      if CheckString(entry.1).None? then Err(ResourceString) else Ok(out.(cpus := CheckString(entry.1)))
    else if entry.0.text == "memory" then
      if CheckString(entry.1).None? then Err(ResourceString) else Ok(out.(memory := CheckString(entry.1)))
    else if entry.0.text == "pids" then
      if entry.1.Integer? && 1 <= entry.1.n <= MAX_PIDS then Ok(out.(pids := Some(entry.1.n))) else Err(ResourcePids)
    else Err(ResourceKey)
  }

  const NO_RESOURCES := Resources(None, None, None)

  function CheckResourceEntries(entries: seq<(Yaml, Yaml)>): Result<Resources, Fault> {
    if entries == [] then Ok(NO_RESOURCES)
    else
      var init := CheckResourceEntries(entries[..|entries| - 1]);
      if init.Err? then init else CheckResource(entries[|entries| - 1], init.value)
  }

  function CheckResources(raw: Option<Yaml>): Result<Option<Resources>, Fault> {
    if raw.None? || raw.value.YNull? then Ok(None)
    else if !raw.value.Mapping? then Err(ResourceShape)
    else
      match CheckResourceEntries(raw.value.entries)
      case Err(fault) => Err(fault)
      case Ok(out) => Ok(if out == NO_RESOURCES then None else Some(out))
  }

  predicate ValidResources(r: Resources) {
    && r != NO_RESOURCES
    && (r.cpus.Some? ==> r.cpus.value != "")
    && (r.memory.Some? ==> r.memory.value != "")
    && (r.pids.Some? ==> 1 <= r.pids.value <= MAX_PIDS)
  }

  // --- Egress ---

  /** The value under a key; keys of a mapping are distinct, so the first is the only one. */
  function Get(entries: seq<(Yaml, Yaml)>, key: string): Option<Yaml> {
    if entries == [] then None
    else if entries[0].0 == YString(key) then Some(entries[0].1)
    else Get(entries[1..], key)
  }

  function CheckPorts(items: seq<Yaml>): Result<seq<nat>, Fault> {
    if items == [] then Ok([])
    else
      var init := CheckPorts(items[..|items| - 1]);
      var last := items[|items| - 1];
      if init.Err? then init
      else if last.Integer? && 1 <= last.n <= MAX_PORT then Ok(init.value + [last.n])
      else Err(PortRange)
  }

  predicate BareHost(host: string) {
    Trim(host) != "" && !HasWhitespace(host) && !Contains(host, "://") && '/' !in host && '*' !in host
  }

  function CheckHost(value: Option<Yaml>): Result<string, Fault> {
    if value.None? then Err(NoHost)
    else if !value.value.YString? then Err(HostShape)
    else
      var host := value.value.text;
      if Trim(host) == "" then Err(EmptyHost)
      else if HasWhitespace(host) then Err(SpacedHost)
      else if Contains(host, "://") || '/' in host then Err(HostNotBare)
      else if '*' in host then Err(WildHost)
      else Ok(host)
  }

  predicate OnlyKeys(entries: seq<(Yaml, Yaml)>, keys: set<string>) {
    forall i :: 0 <= i < |entries| ==> entries[i].0.YString? && entries[i].0.text in keys
  }

  function CheckRule(entry: Yaml): Result<Rule, Fault> {
    if !entry.Mapping? then Err(RuleShape)
    else if !OnlyKeys(entry.entries, {"host", "ports"}) then Err(RuleKey)
    else
      match CheckHost(Get(entry.entries, "host"))
      case Err(fault) => Err(fault)
      case Ok(host) =>
        var ports := Get(entry.entries, "ports");
        if ports.None? then Err(NoPorts)
        else if !ports.value.Sequence? then Err(PortsShape)
        else if ports.value.items == [] then Err(EmptyPorts)
        else
          match CheckPorts(ports.value.items)
          case Err(fault) => Err(fault)
          case Ok(numbers) => Ok(Rule(host, numbers))
  }

  function CheckRules(items: seq<Yaml>): Result<seq<Rule>, Fault> {
    if items == [] then Ok([])
    else
      var init := CheckRules(items[..|items| - 1]);
      if init.Err? then init
      else
        match CheckRule(items[|items| - 1])
        case Err(fault) => Err(fault)
        case Ok(rule) => Ok(init.value + [rule])
  }

  /** The decimal digits of a number, as JSON writes it. */
  function Digits(n: nat): string {
    if n < 10 then [(n as char) + '0'] else Digits(n / 10) + [((n % 10) as char) + '0']
  }

  function RuleJson(rule: Rule): Json {
    JObject(map["host" := JString(rule.host),
                "ports" := JArray(seq(|rule.ports|, i requires 0 <= i < |rule.ports| => JNumber(Digits(rule.ports[i]))))])
  }

  /** The stored form. */
  function EgressJson(e: Egress): Json {
    match e
    case Mode(all) => JObject(map["mode" := JString(if all then "all" else "none")])
    case Allow(rules) => JObject(map["allow" := JArray(seq(|rules|, i requires 0 <= i < |rules| => RuleJson(rules[i])))])
  }

  function CheckEgress(serde: Serde, raw: Option<Yaml>): Result<Egress, Fault> {
    if raw.None? || raw.value.YNull? then Err(NoEgress)
    else if raw.value.YString? then
      if raw.value.text == "all" then Ok(Mode(true)) else if raw.value.text == "none" then Ok(Mode(false)) else Err(EgressWord)
    else if !raw.value.Mapping? then Err(EgressShape)
    else
      var entries := raw.value.entries;
      if Get(entries, "mode").Some? then Err(EgressMode)
      else if Get(entries, "allow").None? then Err(EgressNoAllow)
      else if !Get(entries, "allow").value.Sequence? then Err(EgressAllowShape)
      else if !OnlyKeys(entries, {"allow"}) then Err(EgressKey)
      else
        match CheckRules(Get(entries, "allow").value.items)
        case Err(fault) => Err(fault)
        case Ok(rules) => if serde.size(EgressJson(Allow(rules))) > MAX_VALUE_BYTES then Err(EgressTooLong) else Ok(Allow(rules))
  }

  predicate ValidRule(rule: Rule) {
    BareHost(rule.host) && rule.ports != [] && forall i :: 0 <= i < |rule.ports| ==> 1 <= rule.ports[i] <= MAX_PORT
  }

  predicate ValidEgress(serde: Serde, e: Egress) {
    e.Allow? ==> (forall i :: 0 <= i < |e.rules| ==> ValidRule(e.rules[i])) && serde.size(EgressJson(e)) <= MAX_VALUE_BYTES
  }

  // --- The whole entry ---

  function Lift<T>(name: string, r: Result<T, Fault>): Result<T, ValidationError> {
    match r
    case Ok(value) => Ok(value)
    case Err(fault) => Err(PluginInvalid(name, fault))
  }

  function CheckImage(raw: Option<string>): Result<string, Fault> {
    if raw.Some? && Trim(raw.value) != "" then Ok(Trim(raw.value)) else Err(NoImage)
  }

  function CheckPort(raw: Option<nat>): Result<nat, Fault> {
    if raw.None? then Ok(8000) else if 1 <= raw.value <= MAX_PORT then Ok(raw.value) else Err(BadPort)
  }

  function CheckFields(serde: Serde, name: string, raw: RawPlugin): Result<Plugin, Fault> {
    if raw.network.Some? then Err(NetworkSet)
    else
      var image, port, path, auth := CheckImage(raw.image), CheckPort(raw.port), CheckPath(raw.path), CheckAuth(raw.upstreamAuth);
      var env, resources, egress := CheckEnv(raw.env), CheckResources(raw.resources), CheckEgress(serde, raw.egress);
      if image.Err? then Err(image.error)
      else if port.Err? then Err(port.error)
      else if path.Err? then Err(path.error)
      else if auth.Err? then Err(auth.error)
      else if env.Err? then Err(env.error)
      else if resources.Err? then Err(resources.error)
      else if egress.Err? then Err(egress.error)
      else Ok(Plugin(name, image.value, port.value, path.value, auth.value, env.value, resources.value, egress.value))
  }

  function CheckPlugin(serde: Serde, raw: RawPlugin): Result<Plugin, ValidationError> {
    var name := Trim(raw.name);
    if name == "" then Err(EmptyName("plugins[].name"))
    else if !ValidName(name) then Err(PluginInvalid(name, BadName))
    else Lift(name, CheckFields(serde, name, raw))
  }

  /** Exactly what validation lets through; see `ValidatedIff`. */
  predicate ValidPlugin(serde: Serde, p: Plugin) {
    && ValidName(p.name) && p.image != "" && Trimmed(p.image) && 1 <= p.port <= MAX_PORT
    && ValidPath(p.path) && ValidAuth(p.upstreamAuth) && ValidEnv(p.env)
    && (p.resources.Some? ==> ValidResources(p.resources.value)) && ValidEgress(serde, p.egress)
  }

  // --- Rendering a validated plugin back ---

  function EnvYaml(env: seq<(string, string)>): Yaml {
    Mapping(seq(|env|, i requires 0 <= i < |env| => (YString(env[i].0), YString(env[i].1))))
  }

  function Entry(key: string, value: Option<Yaml>): seq<(Yaml, Yaml)> {
    if value.Some? then [(YString(key), value.value)] else []
  }

  function ResourcesYaml(r: Resources): Yaml {
    Mapping(Entry("cpus", if r.cpus.Some? then Some(YString(r.cpus.value)) else None)
            + Entry("memory", if r.memory.Some? then Some(YString(r.memory.value)) else None)
            + Entry("pids", if r.pids.Some? then Some(Integer(r.pids.value)) else None))
  }

  function PortsYaml(ports: seq<nat>): seq<Yaml> {
    seq(|ports|, i requires 0 <= i < |ports| => Integer(ports[i]))
  }

  function RuleYaml(rule: Rule): Yaml {
    Mapping([(YString("host"), YString(rule.host)),
             (YString("ports"), Sequence(PortsYaml(rule.ports)))])
  }

  function RulesYaml(rules: seq<Rule>): seq<Yaml> {
    seq(|rules|, i requires 0 <= i < |rules| => RuleYaml(rules[i]))
  }

  /** Mode objects become their words again. */
  function EgressYaml(e: Egress): Yaml {
    match e
    case Mode(all) => YString(if all then "all" else "none")
    case Allow(rules) =>
      Mapping([(YString("allow"), Sequence(RulesYaml(rules)))])
  }

  function Render(p: Plugin): RawPlugin {
    RawPlugin(p.name, Some(p.image), Some(p.port), Some(p.path), Some(p.upstreamAuth), Some(EnvYaml(p.env)),
              if p.resources.Some? then Some(ResourcesYaml(p.resources.value)) else None, Some(EgressYaml(p.egress)), None)
  }

  // --- What validation lets through ---

  /** What is absent takes its default: port 8000, path `/`, no auth, no env, no resources. */
  lemma AbsentFieldsDefault(serde: Serde, name: string, image: string)
    requires ValidName(name) && image != "" && Trimmed(image)
    ensures CheckPlugin(serde, RawPlugin(name, Some(image), None, None, None, None, None, Some(YString("none")), None))
            == Ok(Plugin(name, image, 8000, "/", "none", [], None, Mode(false)))
  {
    hide ValidName;
    NameIsTrimmed(name);
    NameNotEmpty(name);
    TrimFixed(image);
    assert "all"[0] != "none"[0];
  }

  lemma PathIsValid(raw: Option<string>)
    requires CheckPath(raw).Ok?
    ensures ValidPath(CheckPath(raw).value)
  {
  }

  /** A string without whitespace is its own trimming. */
  lemma UnspacedIsTrimmed(s: string)
    requires !HasWhitespace(s)
    ensures Trim(s) == s
  {
    TrimFixed(s);
  }

  lemma PathRenders(path: string)
    requires ValidPath(path)
    ensures CheckPath(Some(path)) == Ok(path)
  {
    UnspacedIsTrimmed(path);
  }

  lemma BearerJoins(auth: string)
    requires StartsWith(auth, "bearer/")
    ensures "bearer/" + auth[7..] == auth
  {
    assert auth[..7] == "bearer/";
  }

  lemma AuthIsValid(raw: Option<string>)
    requires CheckAuth(raw).Ok?
    ensures ValidAuth(CheckAuth(raw).value)
  {
    if raw.Some? && StartsWith(raw.value, "bearer/") {
      BearerJoins(raw.value);
    }
  }

  lemma AuthRenders(auth: string)
    requires ValidAuth(auth)
    ensures CheckAuth(Some(auth)) == Ok(auth)
  {
    if auth != "none" {
      BearerJoins(auth);
    }
  }

  lemma {:induction false} EntriesAreValid(entries: seq<(Yaml, Yaml)>)
    requires CheckEntries(entries).Ok?
    ensures var env := CheckEntries(entries).value;
            && |env| == |entries|
            && (forall i :: 0 <= i < |env| ==> ValidPair(env[i]) && entries[i] == (YString(env[i].0), YString(env[i].1)))
            && (forall i, j :: 0 <= i < j < |env| ==> env[i].0 != env[j].0)
  {
    hide ValidEnvName, StartsWith, ByteLength;
    if entries != [] {
      var n := |entries| - 1;
      EntriesAreValid(entries[..n]);
      var init := CheckEntries(entries[..n]).value;
      assert forall i :: 0 <= i < n ==> init[i].0 in Keys(init);
    }
  }

  lemma {:induction false} EntriesRender(env: seq<(string, string)>)
    requires forall i :: 0 <= i < |env| ==> ValidPair(env[i])
    requires forall i, j :: 0 <= i < j < |env| ==> env[i].0 != env[j].0
    ensures CheckEntries(EnvYaml(env).entries) == Ok(env)
  {
    hide ValidEnvName, StartsWith, ByteLength;
    if env == [] {
    } else {
      var n := |env| - 1;
      EntriesRender(env[..n]);
      assert EnvYaml(env).entries[..n] == EnvYaml(env[..n]).entries;
      assert env[..n] + [env[n]] == env;
      assert env[n].0 !in Keys(env[..n]);
    }
  }

  lemma EnvIsValid(raw: Option<Yaml>)
    requires CheckEnv(raw).Ok?
    ensures ValidEnv(CheckEnv(raw).value)
  {
    if raw.Some? && raw.value.Mapping? {
      EntriesAreValid(raw.value.entries);
    }
  }

  lemma EnvRenders(env: seq<(string, string)>)
    requires ValidEnv(env)
    ensures CheckEnv(Some(EnvYaml(env))) == Ok(env)
  {
    EntriesRender(env);
  }

  lemma {:induction false} ResourceEntriesAreValid(entries: seq<(Yaml, Yaml)>)
    requires CheckResourceEntries(entries).Ok?
    ensures CheckResourceEntries(entries).value == NO_RESOURCES || ValidResources(CheckResourceEntries(entries).value)
  {
    if entries != [] {
      ResourceEntriesAreValid(entries[..|entries| - 1]);
    }
  }

  lemma ResourcesAreValid(raw: Option<Yaml>)
    requires CheckResources(raw).Ok? && CheckResources(raw).value.Some?
    ensures ValidResources(CheckResources(raw).value.value)
  {
    ResourceEntriesAreValid(raw.value.entries);
  }

  /** Adding one more checked entry. */
  lemma ResourceStep(entries: seq<(Yaml, Yaml)>, last: (Yaml, Yaml), out: Resources, after: Resources)
    requires CheckResourceEntries(entries) == Ok(out) && CheckResource(last, out) == Ok(after)
    ensures CheckResourceEntries(entries + [last]) == Ok(after)
  {
    assert (entries + [last])[..|entries|] == entries;
  }

  lemma ResourcesRender(r: Resources)
    requires ValidResources(r)
    ensures CheckResources(Some(ResourcesYaml(r))) == Ok(Some(r))
  {
    var cpus := Entry("cpus", if r.cpus.Some? then Some(YString(r.cpus.value)) else None);
    var memory := Entry("memory", if r.memory.Some? then Some(YString(r.memory.value)) else None);
    var pids := Entry("pids", if r.pids.Some? then Some(Integer(r.pids.value)) else None);
    assert CheckResourceEntries([]) == Ok(NO_RESOURCES);
    var one := NO_RESOURCES.(cpus := r.cpus);
    if r.cpus.Some? {
      assert [] + cpus == cpus;
      ResourceStep([], cpus[0], NO_RESOURCES, one);
    }
    var two := one.(memory := r.memory);
    if r.memory.Some? {
      ResourceStep(cpus, memory[0], one, two);
    } else {
      assert cpus + memory == cpus;
    }
    if r.pids.Some? {
      ResourceStep(cpus + memory, pids[0], two, r);
    } else {
      assert cpus + memory + pids == cpus + memory;
    }
  }

  lemma {:induction false} PortsAreValid(items: seq<Yaml>)
    requires CheckPorts(items).Ok?
    ensures var ports := CheckPorts(items).value;
            |ports| == |items| && forall i :: 0 <= i < |ports| ==> 1 <= ports[i] <= MAX_PORT && items[i] == Integer(ports[i])
  {
    if items != [] {
      PortsAreValid(items[..|items| - 1]);
    }
  }

  lemma {:induction false} PortsRender(ports: seq<nat>)
    requires forall i :: 0 <= i < |ports| ==> 1 <= ports[i] <= MAX_PORT
    ensures CheckPorts(PortsYaml(ports)) == Ok(ports)
  {
    var items := PortsYaml(ports);
    if ports != [] {
      var n := |ports| - 1;
      PortsRender(ports[..n]);
      assert items[..n] == PortsYaml(ports[..n]);
      assert ports[..n] + [ports[n]] == ports;
    }
  }

  lemma RuleIsValid(entry: Yaml)
    requires CheckRule(entry).Ok?
    ensures ValidRule(CheckRule(entry).value)
  {
    hide OnlyKeys, Contains, HasWhitespace, Get;
    PortsAreValid(Get(entry.entries, "ports").value.items);
  }

  lemma RuleEntries(host: Yaml, ports: Yaml)
    ensures var entries := [(YString("host"), host), (YString("ports"), ports)];
            Get(entries, "host") == Some(host) && Get(entries, "ports") == Some(ports) && OnlyKeys(entries, {"host", "ports"})
  {
    var entries := [(YString("host"), host), (YString("ports"), ports)];
    assert "host"[0] != "ports"[0];
    assert Get(entries, "ports") == Get(entries[1..], "ports");
    assert entries[1..][0] == (YString("ports"), ports);
  }

  lemma RuleRenders(rule: Rule)
    requires ValidRule(rule)
    ensures CheckRule(RuleYaml(rule)) == Ok(rule)
  {
    hide Contains, HasWhitespace, Get, OnlyKeys, CheckPorts;
    PortsRender(rule.ports);
    RuleEntries(YString(rule.host), Sequence(PortsYaml(rule.ports)));
    assert |PortsYaml(rule.ports)| > 0;
  }

  lemma {:induction false} RulesAreValid(items: seq<Yaml>)
    requires CheckRules(items).Ok?
    ensures forall i :: 0 <= i < |CheckRules(items).value| ==> ValidRule(CheckRules(items).value[i])
  {
    hide ValidRule, CheckRule;
    if items != [] {
      RulesAreValid(items[..|items| - 1]);
      RuleIsValid(items[|items| - 1]);
    }
  }

  lemma {:induction false} RulesRender(rules: seq<Rule>)
    requires forall i :: 0 <= i < |rules| ==> ValidRule(rules[i])
    ensures CheckRules(RulesYaml(rules)) == Ok(rules)
  {
    hide ValidRule, CheckRule, RuleYaml;
    var items := RulesYaml(rules);
    if rules != [] {
      var n := |rules| - 1;
      RulesRender(rules[..n]);
      assert items[..n] == RulesYaml(rules[..n]);
      assert rules[..n] + [rules[n]] == rules;
      RuleRenders(rules[n]);
    }
  }

  lemma EgressIsValid(serde: Serde, raw: Option<Yaml>)
    requires CheckEgress(serde, raw).Ok?
    ensures ValidEgress(serde, CheckEgress(serde, raw).value)
  {
    hide ValidRule, EgressJson, OnlyKeys, Get;
    if raw.value.Mapping? {
      RulesAreValid(Get(raw.value.entries, "allow").value.items);
    }
  }

  lemma AllowEntries(value: Yaml)
    ensures var entries := [(YString("allow"), value)];
            Get(entries, "mode") == None && Get(entries, "allow") == Some(value) && OnlyKeys(entries, {"allow"})
  {
    var entries := [(YString("allow"), value)];
    assert Get(entries[1..], "mode") == None;
    assert "allow"[0] != "mode"[0];
  }

  lemma EgressRenders(serde: Serde, e: Egress)
    requires ValidEgress(serde, e)
    ensures CheckEgress(serde, Some(EgressYaml(e))) == Ok(e)
  {
    hide ValidRule, EgressJson, RuleYaml, Get, OnlyKeys;
    match e
    case Mode(all) =>
      assert "all"[0] != "none"[0];
    case Allow(rules) =>
      RulesRender(rules);
      AllowEntries(Sequence(RulesYaml(rules)));
  }

  lemma NameIsTrimmed(name: string)
    requires ValidName(name)
    ensures Trim(name) == name
  {
    TrimFixed(name);
  }

  /** Whatever validates is well formed in every field. */
  lemma ValidatedIsValid(serde: Serde, raw: RawPlugin)
    requires CheckPlugin(serde, raw).Ok?
    ensures ValidPlugin(serde, CheckPlugin(serde, raw).value) && CheckPlugin(serde, raw).value.name == Trim(raw.name)
  {
    hide CheckPath, CheckAuth, CheckEnv, CheckResources, CheckEgress, ValidPath, ValidAuth, ValidEnv, ValidResources, ValidEgress,
         ValidName;
    PathIsValid(raw.path);
    AuthIsValid(raw.upstreamAuth);
    EnvIsValid(raw.env);
    if CheckResources(raw.resources).value.Some? {
      ResourcesAreValid(raw.resources);
    }
    EgressIsValid(serde, raw.egress);
    if raw.image.Some? {
      TrimIsTrimmed(raw.image.value);
    }
  }

  /** Rendering a well-formed plugin back to its raw form and validating again gives the same plugin. */
  lemma RenderedValidates(serde: Serde, p: Plugin)
    requires ValidPlugin(serde, p)
    ensures CheckPlugin(serde, Render(p)) == Ok(p)
  {
    hide CheckPath, CheckAuth, CheckEnv, CheckResources, CheckEgress, ValidPath, ValidAuth, ValidEnv, ValidResources, ValidEgress,
         ValidName, EnvYaml, ResourcesYaml, EgressYaml;
    NameIsTrimmed(p.name);
    assert p.name != "" by { NameNotEmpty(p.name); }
    TrimFixed(p.image);
    PathRenders(p.path);
    AuthRenders(p.upstreamAuth);
    EnvRenders(p.env);
    if p.resources.Some? {
      ResourcesRender(p.resources.value);
    } else {
      assert CheckResources(None) == Ok(None) by { AbsentResources(); }
    }
    EgressRenders(serde, p.egress);
  }

  lemma NameNotEmpty(name: string)
    requires ValidName(name)
    ensures name != ""
  {
  }

  lemma AbsentResources()
    ensures CheckResources(None) == Ok(None)
  {
  }

  /** Validation reaches a fixed point: what it returns, rendered back, validates to itself. */
  lemma ValidationIsAFixedPoint(serde: Serde, raw: RawPlugin)
    requires CheckPlugin(serde, raw).Ok?
    ensures CheckPlugin(serde, Render(CheckPlugin(serde, raw).value)) == CheckPlugin(serde, raw)
  {
    hide CheckPlugin, Render, ValidPlugin;
    ValidatedIsValid(serde, raw);
    RenderedValidates(serde, CheckPlugin(serde, raw).value);
  }

  ghost predicate Validates(serde: Serde, p: Plugin) {
    exists raw :: CheckPlugin(serde, raw) == Ok(p)
  }

  /** A plugin is the outcome of some validation exactly when it is well formed in every field. */
  lemma ValidatedIff(serde: Serde, p: Plugin)
    ensures Validates(serde, p) <==> ValidPlugin(serde, p)
  {
    hide CheckPlugin, Render, ValidPlugin;
    if Validates(serde, p) {
      var raw :| CheckPlugin(serde, raw) == Ok(p);
      ValidatedIsValid(serde, raw);
    }
    if ValidPlugin(serde, p) {
      RenderedValidates(serde, p);
    }
  }

  // --- The validators as they run ---

  lemma {:induction false} EntriesFail(entries: seq<(Yaml, Yaml)>, i: nat)
    requires i <= |entries| && CheckEntries(entries[..i]).Err?
    ensures CheckEntries(entries) == CheckEntries(entries[..i])
  {
    hide CheckEnvEntry;
    if i == |entries| {
      assert entries[..i] == entries;
    } else {
      var n := |entries| - 1;
      assert entries[..n][..i] == entries[..i];
      EntriesFail(entries[..n], i);
    }
  }

  method ValidateEnv(raw: Option<Yaml>) returns (r: Result<seq<(string, string)>, Fault>)
    ensures r == CheckEnv(raw)
  {
    hide ValidEnvName, StartsWith, ByteLength;
    if raw.None? || raw.value.YNull? {
      return Ok([]);
    }
    if !raw.value.Mapping? {
      return Err(EnvShape);
    }
    var mapping := raw.value.entries;
    if |mapping| > MAX_ENV_ENTRIES {
      return Err(EnvTooMany);
    }
    var seen: set<string> := {};
    var out: seq<(string, string)> := [];
    for i := 0 to |mapping|
      invariant CheckEntries(mapping[..i]) == Ok(out)
      invariant seen == Keys(out)
    {
      assert mapping[..i + 1][..i] == mapping[..i];
      ghost var checked := CheckEnvEntry(mapping[i], Keys(out));
      if checked.Err? {
        EntriesFail(mapping, i + 1);
      }
      var (key, value) := mapping[i];
      if !key.YString? {
        return Err(EnvKeyShape);
      }
      if !value.YString? {
        return Err(EnvValueShape);
      }
      if StartsWith(key.text, "BOTWORK_SECRET_") {
        return Err(EnvSecretName);
      }
      if key.text == "BOTWORK_MCP_CONFIG" {
        return Err(EnvConfigName);
      }
      if !ValidEnvName(key.text) {
        return Err(EnvName);
      }
      if ByteLength(value.text) > MAX_VALUE_BYTES {
        return Err(EnvTooLong);
      }
      if key.text in seen {
        return Err(EnvTwice);
      }
      seen := seen + {key.text};
      KeysGrow(out, (key.text, value.text));
      out := out + [(key.text, value.text)];
    }
    assert mapping[..|mapping|] == mapping;
    return Ok(out);
  }

  lemma KeysGrow(out: seq<(string, string)>, pair: (string, string))
    ensures Keys(out + [pair]) == Keys(out) + {pair.0}
  {
    assert (out + [pair])[|out|] == pair;
    assert forall i :: 0 <= i < |out| ==> (out + [pair])[i] == out[i];
  }

  lemma {:induction false} ResourcesFail(entries: seq<(Yaml, Yaml)>, i: nat)
    requires i <= |entries| && CheckResourceEntries(entries[..i]).Err?
    ensures CheckResourceEntries(entries) == CheckResourceEntries(entries[..i])
  {
    hide CheckResource;
    if i == |entries| {
      assert entries[..i] == entries;
    } else {
      var n := |entries| - 1;
      assert entries[..n][..i] == entries[..i];
      ResourcesFail(entries[..n], i);
    }
  }

  method ValidateResources(raw: Option<Yaml>) returns (r: Result<Option<Resources>, Fault>)
    ensures r == CheckResources(raw)
  {
    if raw.None? || raw.value.YNull? {
      return Ok(None);
    }
    if !raw.value.Mapping? {
      return Err(ResourceShape);
    }
    var mapping := raw.value.entries;
    var out := NO_RESOURCES;
    for i := 0 to |mapping|
      invariant CheckResourceEntries(mapping[..i]) == Ok(out)
    {
      assert mapping[..i + 1][..i] == mapping[..i];
      if CheckResource(mapping[i], out).Err? {
        ResourcesFail(mapping, i + 1);
      }
      var (key, value) := mapping[i];
      if !key.YString? {
        return Err(ResourceKeyShape);
      }
      match key.text {
        case "cpus" =>
          if !value.YString? || value.text == "" {
            return Err(ResourceString);
          }
          out := out.(cpus := Some(value.text));
        case "memory" =>
          if !value.YString? || value.text == "" {
            return Err(ResourceString);
          }
          out := out.(memory := Some(value.text));
        case "pids" =>
          if !value.Integer? || value.n <= 0 || value.n > MAX_PIDS {
            return Err(ResourcePids);
          }
          out := out.(pids := Some(value.n));
        case _ =>
          return Err(ResourceKey);
      }
    }
    assert mapping[..|mapping|] == mapping;
    return Ok(if out == NO_RESOURCES then None else Some(out));
  }

  lemma {:induction false} RulesFail(items: seq<Yaml>, i: nat)
    requires i <= |items| && CheckRules(items[..i]).Err?
    ensures CheckRules(items) == CheckRules(items[..i])
  {
    hide CheckRule;
    if i == |items| {
      assert items[..i] == items;
    } else {
      var n := |items| - 1;
      assert items[..n][..i] == items[..i];
      RulesFail(items[..n], i);
    }
  }

  lemma {:induction false} PortsFail(items: seq<Yaml>, i: nat)
    requires i <= |items| && CheckPorts(items[..i]).Err?
    ensures CheckPorts(items) == Err(PortRange)
  {
    var n := |items| - 1;
    if i == |items| {
      assert items[..i] == items;
      if CheckPorts(items[..n]).Err? {
        assert items[..n][..n] == items[..n];
        PortsFail(items[..n], n);
      }
    } else {
      assert items[..n][..i] == items[..i];
      PortsFail(items[..n], i);
    }
  }

  method ValidatePorts(items: seq<Yaml>) returns (r: Result<seq<nat>, Fault>)
    ensures r == CheckPorts(items)
  {
    var ports: seq<nat> := [];
    for i := 0 to |items|
      invariant CheckPorts(items[..i]) == Ok(ports)
    {
      assert items[..i + 1][..i] == items[..i];
      if !items[i].Integer? || items[i].n <= 0 || items[i].n > MAX_PORT {
        PortsFail(items, i + 1);
        return Err(PortRange);
      }
      ports := ports + [items[i].n];
    }
    assert items[..|items|] == items;
    return Ok(ports);
  }

  method ValidateAllowEntry(entry: Yaml) returns (r: Result<Rule, Fault>)
    ensures r == CheckRule(entry)
  {
    hide Contains, HasWhitespace, Get;
    if !entry.Mapping? {
      return Err(RuleShape);
    }
    for i := 0 to |entry.entries|
      invariant forall j :: 0 <= j < i ==> entry.entries[j].0.YString? && entry.entries[j].0.text in {"host", "ports"}
    {
      var key := entry.entries[i].0;
      if !key.YString? || (key.text != "host" && key.text != "ports") {
        return Err(RuleKey);
      }
    }
    var host := CheckHost(Get(entry.entries, "host"));
    if host.Err? {
      return Err(host.error);
    }
    var ports := Get(entry.entries, "ports");
    if ports.None? {
      return Err(NoPorts);
    }
    if !ports.value.Sequence? {
      return Err(PortsShape);
    }
    if ports.value.items == [] {
      return Err(EmptyPorts);
    }
    var numbers := ValidatePorts(ports.value.items);
    return match numbers case Ok(list) => Ok(Rule(host.value, list)) case Err(fault) => Err(fault);
  }

  method ValidateEgress(serde: Serde, raw: Option<Yaml>) returns (r: Result<Egress, Fault>)
    ensures r == CheckEgress(serde, raw)
  {
    hide CheckRule, Get, EgressJson;
    if raw.None? || raw.value.YNull? {
      return Err(NoEgress);
    }
    if raw.value.YString? {
      return if raw.value.text == "all" then Ok(Mode(true)) else if raw.value.text == "none" then Ok(Mode(false)) else Err(EgressWord);
    }
    if !raw.value.Mapping? {
      return Err(EgressShape);
    }
    var mapping := raw.value.entries;
    if Get(mapping, "mode").Some? {
      return Err(EgressMode);
    }
    var allow := Get(mapping, "allow");
    if allow.None? {
      return Err(EgressNoAllow);
    }
    if !allow.value.Sequence? {
      return Err(EgressAllowShape);
    }
    for i := 0 to |mapping|
      invariant forall j :: 0 <= j < i ==> mapping[j].0.YString? && mapping[j].0.text in {"allow"}
    {
      if !mapping[i].0.YString? || mapping[i].0.text != "allow" {
        return Err(EgressKey);
      }
    }
    var items := allow.value.items;
    var rules: seq<Rule> := [];
    for i := 0 to |items|
      invariant CheckRules(items[..i]) == Ok(rules)
    {
      assert items[..i + 1][..i] == items[..i];
      var rule := ValidateAllowEntry(items[i]);
      if rule.Err? {
        RulesFail(items, i + 1);
        return Err(rule.error);
      }
      rules := rules + [rule.value];
    }
    assert items[..|items|] == items;
    if serde.size(EgressJson(Allow(rules))) > MAX_VALUE_BYTES {
      return Err(EgressTooLong);
    }
    return Ok(Allow(rules));
  }

  method ValidateOne(serde: Serde, raw: RawPlugin) returns (r: Result<Plugin, ValidationError>)
    ensures r == CheckPlugin(serde, raw)
  {
    hide CheckPath, CheckAuth, CheckEnv, CheckResources, CheckEgress, ValidName;
    var name := Trim(raw.name);
    if name == "" {
      return Err(EmptyName("plugins[].name"));
    }
    if !ValidName(name) {
      return Err(PluginInvalid(name, BadName));
    }
    if raw.network.Some? {
      return Err(PluginInvalid(name, NetworkSet));
    }
    var image := CheckImage(raw.image);
    if image.Err? {
      return Err(PluginInvalid(name, image.error));
    }
    var port := CheckPort(raw.port);
    if port.Err? {
      return Err(PluginInvalid(name, port.error));
    }
    var path := CheckPath(raw.path);
    if path.Err? {
      return Err(PluginInvalid(name, path.error));
    }
    var auth := CheckAuth(raw.upstreamAuth);
    if auth.Err? {
      return Err(PluginInvalid(name, auth.error));
    }
    var env := ValidateEnv(raw.env);
    if env.Err? {
      return Err(PluginInvalid(name, env.error));
    }
    var resources := ValidateResources(raw.resources);
    if resources.Err? {
      return Err(PluginInvalid(name, resources.error));
    }
    var egress := ValidateEgress(serde, raw.egress);
    if egress.Err? {
      return Err(PluginInvalid(name, egress.error));
    }
    return Ok(Plugin(name, image.value, port.value, path.value, auth.value, env.value, resources.value, egress.value));
  }

  // --- A binding's config ---

  /** Absent, null and empty configs are the same; anything but a mapping that fits is refused. */
  function CheckConfig(serde: Serde, context: string, raw: Option<Yaml>): Result<Option<Json>, ValidationError> {
    if raw.None? || raw.value.YNull? then Ok(None)
    else
      var json := serde.toJson(raw.value);
      if json.None? then Err(BindingInvalid(context, ConfigJson))
      else if !json.value.JObject? then Err(BindingInvalid(context, ConfigShape))
      else if json.value.fields == map[] then Ok(None)
      else if serde.size(json.value) > MAX_VALUE_BYTES then Err(BindingInvalid(context, ConfigTooLong))
      else Ok(Some(json.value))
  }
}
