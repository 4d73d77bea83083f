/** Which plugin entries and binding configs are accepted, as what, and why others are not, with every rule written out. */
module PluginLaws {
  import opened Wrappers
  import opened Text
  import opened PluginSpec

  // --- Scalar fields ---

  /** `^[a-z][a-z0-9-]{0,30}$` */
  predicate Slug(name: string) {
    && 1 <= |name| <= 31 && 'a' <= name[0] <= 'z'
    && forall i :: 1 <= i < |name| ==> 'a' <= name[i] <= 'z' || '0' <= name[i] <= '9' || name[i] == '-'
  }

  predicate Spaceless(s: string) {
    forall i :: 0 <= i < |s| ==> !IsWhitespace(s[i])
  }

  predicate ImageIs(raw: Option<string>, image: string) {
    raw.Some? && image == Trim(raw.value) && image != ""
  }

  predicate PortIs(raw: Option<nat>, port: nat) {
    port == (if raw.Some? then raw.value else 8000) && 1 <= port <= 65535
  }

  predicate PathIs(raw: Option<string>, path: string) {
    && path == (if raw.Some? then Trim(raw.value) else "/")
    && path != "" && path[0] == '/' && Spaceless(path) && '?' !in path && '#' !in path
    && (path == "/" || path[|path| - 1] != '/')
  }

  predicate AuthIs(raw: Option<string>, auth: string) {
    && auth == (if raw.Some? then raw.value else "none")
    && (auth == "none" || ("bearer/" < auth && '/' !in auth[7..] && Spaceless(auth[7..])))
  }

  lemma ScalarsMean(image: Option<string>, port: Option<nat>, path: Option<string>, auth: Option<string>)
    ensures forall out :: CheckImage(image) == Ok(out) <==> ImageIs(image, out)
    ensures forall out: nat :: CheckPort(port) == Ok(out) <==> PortIs(port, out)
    ensures forall out :: CheckPath(path) == Ok(out) <==> PathIs(path, out)
    ensures forall out :: CheckAuth(auth) == Ok(out) <==> AuthIs(auth, out)
  {
    hide Trim;
    AuthMeans(auth);
  }

  lemma AuthMeans(auth: Option<string>)
    ensures forall out :: CheckAuth(auth) == Ok(out) <==> AuthIs(auth, out)
  {
    if auth.Some? && "bearer/" <= auth.value {
      assert auth.value == "bearer/" + auth.value[7..];
      assert auth.value[0] != "none"[0];
      assert auth.value != "bearer/" <==> auth.value[7..] != "";
    }
    if auth == Some("bearer") {
      assert !("bearer/" <= "bearer");
    }
  }

  /** The faults of a path and of an auth word, in the order in which they are looked for. */
  lemma ScalarFaults(path: string, auth: string)
    ensures CheckImage(None) == Err(NoImage) && (Trim(path) == "" ==> CheckImage(Some(path)) == Err(NoImage))
    ensures forall port: nat :: CheckPort(Some(port)) == Err(BadPort) <==> port == 0 || port > 65535
    ensures CheckPath(Some(path)) == Err(EmptyPath) <==> Trim(path) == ""
    ensures CheckPath(Some(path)) == Err(RelativePath) <==> Trim(path) != "" && Trim(path)[0] != '/'
    ensures CheckPath(Some(path)) == Err(SpacedPath) <==> Trim(path) != "" && Trim(path)[0] == '/' && !Spaceless(Trim(path))
    ensures CheckPath(Some(path)) == Err(QueryPath) <==>
              Trim(path) != "" && Trim(path)[0] == '/' && Spaceless(Trim(path)) && ('?' in Trim(path) || '#' in Trim(path))
    ensures CheckPath(Some(path)) == Err(SlashedPath) <==>
              Trim(path) != "" && Trim(path)[0] == '/' && Spaceless(Trim(path)) && '?' !in Trim(path) && '#' !in Trim(path)
              && Trim(path) != "/" && Trim(path)[|Trim(path)| - 1] == '/'
    ensures CheckAuth(Some(auth)) == Err(NoService) <==> auth == "bearer" || auth == "bearer/"
    ensures CheckAuth(Some(auth)).Err? ==> CheckAuth(Some(auth)).error in {NoService, BadAuth}
  {
    hide Trim;
    assert "bearer"[0] != "none"[0] && "bearer/"[0] != "none"[0];
  }

  // --- Env ---

  predicate EnvNameAllowed(name: string) {
    && name != "" && ('A' <= name[0] <= 'Z' || name[0] == '_')
    && (forall i :: 1 <= i < |name| ==> 'A' <= name[i] <= 'Z' || '0' <= name[i] <= '9' || name[i] == '_')
    && name !in {"PATH", "LD_PRELOAD", "LD_LIBRARY_PATH", "BOTWORK_MCP_CONFIG"}
    && !("DOCKER_" <= name) && !("BOTWORK_SECRET_" <= name)
  }

  predicate PairIs(entry: (Yaml, Yaml), pair: (string, string)) {
    entry == (YString(pair.0), YString(pair.1)) && EnvNameAllowed(pair.0) && ByteLength(pair.1) <= 65536
  }

  predicate EntriesAre(entries: seq<(Yaml, Yaml)>, env: seq<(string, string)>) {
    && |env| == |entries|
    && (forall i :: 0 <= i < |env| ==> PairIs(entries[i], env[i]))
    && (forall i, j :: 0 <= i < j < |env| ==> env[i].0 != env[j].0)
  }

  /** Absent or null is nothing; otherwise a mapping of at most 32 allowed names, each once, to texts that fit. */
  predicate EnvIs(raw: Option<Yaml>, env: seq<(string, string)>) {
    if raw.None? || raw.value.YNull? then env == []
    else raw.value.Mapping? && |raw.value.entries| <= 32 && EntriesAre(raw.value.entries, env)
  }

  lemma PairMeans(entry: (Yaml, Yaml), seen: set<string>, pair: (string, string))
    ensures CheckEnvEntry(entry, seen) == Ok(pair) <==> PairIs(entry, pair) && pair.0 !in seen
  {
    hide ByteLength;
  }

  lemma {:induction false} EntriesMean(entries: seq<(Yaml, Yaml)>, env: seq<(string, string)>)
    ensures CheckEntries(entries) == Ok(env) <==> EntriesAre(entries, env)
    decreases |entries|
  {
    hide CheckEnvEntry, PairIs;
    if entries != [] {
      var n := |entries| - 1;
      if |env| == n + 1 {
        EntriesMean(entries[..n], env[..n]);
        PairMeans(entries[n], Keys(env[..n]), env[n]);
        assert env == env[..n] + [env[n]];
        KeysHave(env[..n], env[n].0);
      }
      if CheckEntries(entries).Ok? {
        var init := CheckEntries(entries[..n]).value;
        EntriesMean(entries[..n], init);
        var last := CheckEnvEntry(entries[n], Keys(init)).value;
        if CheckEntries(entries).value == env {
          assert env[..n] == init && env[n] == last;
        }
      }
    }
  }

  lemma KeysHave(env: seq<(string, string)>, key: string)
    ensures key in Keys(env) <==> exists i :: 0 <= i < |env| && env[i].0 == key
  {
  }

  lemma EnvMeans(raw: Option<Yaml>)
    ensures forall env :: CheckEnv(raw) == Ok(env) <==> EnvIs(raw, env)
  {
    hide CheckEntries, EntriesAre;
    forall env
      ensures CheckEnv(raw) == Ok(env) <==> EnvIs(raw, env)
    {
      if raw.Some? && raw.value.Mapping? {
        EntriesMean(raw.value.entries, env);
      }
    }
  }

  /** Why one env entry is refused, first reason first. */
  lemma EnvFaults(name: string, value: string, seen: set<string>)
    ensures var r := CheckEnvEntry((YString(name), YString(value)), seen);
            && (r == Err(EnvSecretName) <==> "BOTWORK_SECRET_" <= name)
            && (r == Err(EnvConfigName) <==> name == "BOTWORK_MCP_CONFIG")
            && (r == Err(EnvName) <==> !("BOTWORK_SECRET_" <= name) && name != "BOTWORK_MCP_CONFIG" && !EnvNameAllowed(name))
            && (r == Err(EnvTooLong) <==> EnvNameAllowed(name) && ByteLength(value) > 65536)
            && (r == Err(EnvTwice) <==> EnvNameAllowed(name) && ByteLength(value) <= 65536 && name in seen)
    ensures CheckEnv(Some(YString(name))) == Err(EnvShape)
    ensures forall entries :: CheckEnv(Some(Mapping(entries))) == Err(EnvTooMany) <== |entries| > 32
  {
    hide ByteLength;
    assert "BOTWORK_MCP_CONFIG"[8] != "BOTWORK_SECRET_"[8];
  }

  // --- Resources ---

  /** The last entry under the key has this value. */
  predicate LastUnder(entries: seq<(Yaml, Yaml)>, key: string, value: Yaml) {
    exists i :: 0 <= i < |entries| && entries[i] == (YString(key), value) && forall j :: i < j < |entries| ==> entries[j].0 != YString(key)
  }

  predicate NoneUnder(entries: seq<(Yaml, Yaml)>, key: string) {
    forall i :: 0 <= i < |entries| ==> entries[i].0 != YString(key)
  }

  predicate ResourceOk(entry: (Yaml, Yaml)) {
    || (entry.0 in {YString("cpus"), YString("memory")} && entry.1.YString? && entry.1.text != "")
    || (entry.0 == YString("pids") && entry.1.Integer? && 1 <= entry.1.n <= 4294967295)
  }

  predicate CapsAre(entries: seq<(Yaml, Yaml)>, r: Resources) {
    && (forall i :: 0 <= i < |entries| ==> ResourceOk(entries[i]))
    && (if r.cpus.Some? then LastUnder(entries, "cpus", YString(r.cpus.value)) else NoneUnder(entries, "cpus"))
    && (if r.memory.Some? then LastUnder(entries, "memory", YString(r.memory.value)) else NoneUnder(entries, "memory"))
    && (if r.pids.Some? then LastUnder(entries, "pids", Integer(r.pids.value)) else NoneUnder(entries, "pids"))
  }

  /** Absent, null and empty are nothing; otherwise a mapping of these three keys to texts and a count. */
  predicate ResourcesAre(raw: Option<Yaml>, r: Option<Resources>) {
    if raw.None? || raw.value.YNull? then r == None
    else
      && raw.value.Mapping?
      && (if r.Some? then r.value != Resources(None, None, None) && CapsAre(raw.value.entries, r.value)
          else raw.value.entries == [])
  }

  lemma UnderSnoc(entries: seq<(Yaml, Yaml)>, last: (Yaml, Yaml), key: string)
    ensures NoneUnder(entries + [last], key) <==> NoneUnder(entries, key) && last.0 != YString(key)
    ensures forall value :: LastUnder(entries + [last], key, value)
              <==> last == (YString(key), value) || (last.0 != YString(key) && LastUnder(entries, key, value))
  {
    var all := entries + [last];
    assert all[|entries|] == last && all[..|entries|] == entries;
    assert forall i :: 0 <= i < |entries| ==> all[i] == entries[i];
    forall value | LastUnder(entries, key, value) && last.0 != YString(key)
      ensures LastUnder(all, key, value)
    {
      var i :| 0 <= i < |entries| && entries[i] == (YString(key), value) && forall j :: i < j < |entries| ==> entries[j].0 != YString(key);
      assert all[i] == (YString(key), value);
    }
  }

  lemma {:induction false} CapsMean(entries: seq<(Yaml, Yaml)>)
    ensures CheckResourceEntries(entries).Ok? <==> forall i :: 0 <= i < |entries| ==> ResourceOk(entries[i])
    ensures CheckResourceEntries(entries).Ok? ==> CapsAre(entries, CheckResourceEntries(entries).value)
  {
    hide LastUnder, NoneUnder;
    if entries == [] {
      assert NoneUnder(entries, "cpus") && NoneUnder(entries, "memory") && NoneUnder(entries, "pids") by { NothingUnder(); }
    } else {
      var n := |entries| - 1;
      var init, last := entries[..n], entries[n];
      assert entries == init + [last];
      CapsMean(init);
      UnderSnoc(init, last, "cpus");
      UnderSnoc(init, last, "memory");
      UnderSnoc(init, last, "pids");
      KeysDiffer();
    }
  }

  lemma NothingUnder()
    ensures NoneUnder([], "cpus") && NoneUnder([], "memory") && NoneUnder([], "pids")
  {
  }

  lemma KeysDiffer()
    ensures "cpus" != "memory" && "cpus" != "pids" && "memory" != "pids"
  {
    assert "cpus"[0] != "memory"[0] && "cpus"[0] != "pids"[0] && "memory"[0] != "pids"[0];
  }

  lemma OneLast(entries: seq<(Yaml, Yaml)>, key: string, a: Yaml, b: Yaml)
    ensures LastUnder(entries, key, a) && LastUnder(entries, key, b) ==> a == b
    ensures LastUnder(entries, key, a) ==> !NoneUnder(entries, key)
  {
    if LastUnder(entries, key, a) && LastUnder(entries, key, b) {
      var i :| 0 <= i < |entries| && entries[i] == (YString(key), a) && forall j :: i < j < |entries| ==> entries[j].0 != YString(key);
      var k :| 0 <= k < |entries| && entries[k] == (YString(key), b) && forall j :: k < j < |entries| ==> entries[j].0 != YString(key);
      assert i == k;
    }
  }

  lemma OneCaps(entries: seq<(Yaml, Yaml)>, a: Resources, b: Resources)
    requires CapsAre(entries, a) && CapsAre(entries, b)
    ensures a == b
  {
    hide LastUnder, NoneUnder;
    OneOf(entries, "cpus", a.cpus, b.cpus);
    OneOf(entries, "memory", a.memory, b.memory);
    if a.pids.Some? {
      OneLast(entries, "pids", Integer(a.pids.value), Integer(if b.pids.Some? then b.pids.value else 0));
    } else if b.pids.Some? {
      OneLast(entries, "pids", Integer(b.pids.value), Integer(0));
    }
  }

  lemma OneOf(entries: seq<(Yaml, Yaml)>, key: string, a: Option<string>, b: Option<string>)
    requires if a.Some? then LastUnder(entries, key, YString(a.value)) else NoneUnder(entries, key)
    requires if b.Some? then LastUnder(entries, key, YString(b.value)) else NoneUnder(entries, key)
    ensures a == b
  {
    hide LastUnder, NoneUnder;
    if a.Some? {
      OneLast(entries, key, YString(a.value), YString(if b.Some? then b.value else ""));
    } else if b.Some? {
      OneLast(entries, key, YString(b.value), YString(""));
    }
  }

  lemma SomeCaps(entries: seq<(Yaml, Yaml)>, r: Resources)
    requires CapsAre(entries, r) && entries != []
    ensures r != Resources(None, None, None)
  {
    assert ResourceOk(entries[0]);
  }

  lemma ResourcesMean(raw: Option<Yaml>)
    ensures forall r :: CheckResources(raw) == Ok(r) <==> ResourcesAre(raw, r)
  {
    hide CheckResourceEntries, CapsAre, ResourceOk;
    if raw.Some? && raw.value.Mapping? {
      var entries := raw.value.entries;
      CapsMean(entries);
      CapsNeedOk(entries);
      if CheckResourceEntries(entries).Ok? {
        var out := CheckResourceEntries(entries).value;
        if entries != [] {
          SomeCaps(entries, out);
        }
        forall r | CapsAre(entries, r)
          ensures r == out
        {
          OneCaps(entries, r, out);
        }
      }
      EmptyCaps(entries);
    }
  }

  lemma CapsNeedOk(entries: seq<(Yaml, Yaml)>)
    ensures (exists r :: CapsAre(entries, r)) ==> forall i :: 0 <= i < |entries| ==> ResourceOk(entries[i])
  {
  }

  lemma EmptyCaps(entries: seq<(Yaml, Yaml)>)
    ensures entries == [] ==> CheckResourceEntries(entries) == Ok(Resources(None, None, None))
  {
  }

  // --- Egress ---

  /** The first entry under the key has this value. */
  lemma {:induction false} GetMeans(entries: seq<(Yaml, Yaml)>, key: string)
    ensures Get(entries, key) == None <==> NoneUnder(entries, key)
    ensures Get(entries, key).Some? ==>
              exists i :: 0 <= i < |entries| && entries[i] == (YString(key), Get(entries, key).value)
                && forall j :: 0 <= j < i ==> entries[j].0 != YString(key)
  {
    if entries != [] && entries[0].0 != YString(key) {
      GetMeans(entries[1..], key);
      if Get(entries, key).Some? {
        var i :| 0 <= i < |entries[1..]| && entries[1..][i] == (YString(key), Get(entries, key).value)
          && forall j :: 0 <= j < i ==> entries[1..][j].0 != YString(key);
        assert entries[i + 1] == (YString(key), Get(entries, key).value);
        assert forall j :: 0 <= j < i + 1 ==> entries[j].0 != YString(key) by {
          forall j | 1 <= j < i + 1 ensures entries[j] == entries[1..][j - 1] {}
        }
      }
    } else if entries != [] {
      assert entries[0] == (YString(key), Get(entries, key).value);
    }
  }

  predicate HostIs(value: Option<Yaml>, host: string) {
    && value == Some(YString(host)) && host != "" && Spaceless(host)
    && '/' !in host && '*' !in host
  }

  predicate PortsAre(items: seq<Yaml>, ports: seq<nat>) {
    |ports| == |items| && forall i :: 0 <= i < |ports| ==> items[i] == Integer(ports[i]) && 1 <= ports[i] <= 65535
  }

  /** A mapping with no other keys, of a bare host and at least one port. */
  predicate RuleIs(item: Yaml, rule: Rule) {
    && item.Mapping?
    && (forall i :: 0 <= i < |item.entries| ==> item.entries[i].0 in {YString("host"), YString("ports")})
    && HostIs(Get(item.entries, "host"), rule.host)
    && Get(item.entries, "ports").Some? && Get(item.entries, "ports").value.Sequence? && rule.ports != []
    && PortsAre(Get(item.entries, "ports").value.items, rule.ports)
  }

  predicate RulesAre(items: seq<Yaml>, rules: seq<Rule>) {
    |rules| == |items| && forall i :: 0 <= i < |rules| ==> RuleIs(items[i], rules[i])
  }

  /** One of two words, or a mapping with no other key than a list of rules that fits. */
  predicate EgressIs(serde: Serde, raw: Option<Yaml>, e: Egress) {
    && raw.Some?
    && match e
       case Mode(all) => raw.value == YString(if all then "all" else "none")
       case Allow(rules) =>
         && raw.value.Mapping?
         && (forall i :: 0 <= i < |raw.value.entries| ==> raw.value.entries[i].0 == YString("allow"))
         && Get(raw.value.entries, "allow").Some? && Get(raw.value.entries, "allow").value.Sequence?
         && RulesAre(Get(raw.value.entries, "allow").value.items, rules)
         && serde.size(EgressJson(e)) <= 65536
  }

  lemma HostMeans(value: Option<Yaml>)
    ensures forall host :: CheckHost(value) == Ok(host) <==> HostIs(value, host)
  {
    hide Trim;
    if value.Some? && value.value.YString? {
      var host := value.value.text;
      SpacelessTrims(host);
      if Contains(host, "://") {
        SlashInside(host);
      }
    }
  }

  lemma SpacelessTrims(s: string)
    ensures HasWhitespace(s) <==> !Spaceless(s)
    ensures Spaceless(s) ==> Trim(s) == s
    ensures s == "" ==> Trim(s) == ""
  {
    hide Trim;
    if Spaceless(s) {
      UnspacedIsTrimmed(s);
    }
  }

  lemma SlashInside(host: string)
    requires Contains(host, "://")
    ensures '/' in host
  {
    var i :| 0 <= i <= |host| && "://" <= host[i..];
    assert host[i + 1] == host[i..][1] == "://"[1];
  }

  lemma {:induction false} PortsMean(items: seq<Yaml>, ports: seq<nat>)
    ensures CheckPorts(items) == Ok(ports) <==> PortsAre(items, ports)
    decreases |items|
  {
    if items != [] {
      var n := |items| - 1;
      if |ports| == n + 1 {
        PortsMean(items[..n], ports[..n]);
        assert ports == ports[..n] + [ports[n]];
      }
      if CheckPorts(items).Ok? {
        PortsMean(items[..n], CheckPorts(items[..n]).value);
      }
    }
  }

  lemma RuleMeans(item: Yaml, rule: Rule)
    ensures CheckRule(item) == Ok(rule) <==> RuleIs(item, rule)
  {
    hide Get, CheckHost, HostIs, CheckPorts, PortsAre;
    if item.Mapping? {
      HostMeans(Get(item.entries, "host"));
      var ports := Get(item.entries, "ports");
      if ports.Some? && ports.value.Sequence? {
        PortsMean(ports.value.items, rule.ports);
        PortsLength(ports.value.items, rule.ports);
      }
      OnlyTwoKeys(item.entries);
    }
  }

  lemma PortsLength(items: seq<Yaml>, ports: seq<nat>)
    ensures PortsAre(items, ports) ==> (items == [] <==> ports == [])
  {
  }

  lemma OnlyTwoKeys(entries: seq<(Yaml, Yaml)>)
    ensures OnlyKeys(entries, {"host", "ports"})
       <==> forall i :: 0 <= i < |entries| ==> entries[i].0 in {YString("host"), YString("ports")}
    ensures OnlyKeys(entries, {"allow"}) <==> forall i :: 0 <= i < |entries| ==> entries[i].0 == YString("allow")
  {
  }

  lemma {:induction false} RulesMean(items: seq<Yaml>, rules: seq<Rule>)
    ensures CheckRules(items) == Ok(rules) <==> RulesAre(items, rules)
    decreases |items|
  {
    hide CheckRule, RuleIs;
    if items != [] {
      var n := |items| - 1;
      if |rules| == n + 1 {
        RulesMean(items[..n], rules[..n]);
        RuleMeans(items[n], rules[n]);
        assert rules == rules[..n] + [rules[n]];
      }
      if CheckRules(items).Ok? {
        RulesMean(items[..n], CheckRules(items[..n]).value);
        RuleMeans(items[n], CheckRule(items[n]).value);
      }
    }
  }

  lemma EgressMeans(serde: Serde, raw: Option<Yaml>)
    ensures forall e :: CheckEgress(serde, raw) == Ok(e) <==> EgressIs(serde, raw, e)
  {
    hide Get, CheckRules, RulesAre, EgressJson, OnlyKeys;
    assert "all"[0] != "none"[0];
    if raw.Some? && raw.value.Mapping? {
      var entries := raw.value.entries;
      OnlyTwoKeys(entries);
      ModeIsNotAllow(entries);
      if Get(entries, "allow").Some? && Get(entries, "allow").value.Sequence? {
        forall rules
          ensures CheckRules(Get(entries, "allow").value.items) == Ok(rules) <==> RulesAre(Get(entries, "allow").value.items, rules)
        {
          RulesMean(Get(entries, "allow").value.items, rules);
        }
      }
    }
  }

  lemma ModeIsNotAllow(entries: seq<(Yaml, Yaml)>)
    ensures (forall i :: 0 <= i < |entries| ==> entries[i].0 == YString("allow")) ==> Get(entries, "mode").None?
  {
    GetMeans(entries, "mode");
    assert "mode"[0] != "allow"[0];
  }

  // --- The whole entry ---

  predicate Accepts(serde: Serde, raw: RawPlugin, p: Plugin) {
    && p.name == Trim(raw.name) && Slug(p.name) && raw.network == None
    && ImageIs(raw.image, p.image) && PortIs(raw.port, p.port) && PathIs(raw.path, p.path) && AuthIs(raw.upstreamAuth, p.upstreamAuth)
    && EnvIs(raw.env, p.env) && ResourcesAre(raw.resources, p.resources) && EgressIs(serde, raw.egress, p.egress)
  }

  lemma SlugMeans(name: string)
    ensures ValidName(name) <==> Slug(name)
  {
  }

  /** An entry is accepted as a plugin exactly when each of its fields, as written, is one of the plugin's as the rules have it. */
  lemma AcceptedMeans(serde: Serde, raw: RawPlugin, p: Plugin)
    ensures CheckPlugin(serde, raw) == Ok(p) <==> Accepts(serde, raw, p)
  {
    hide Trim, ValidName, Slug, CheckImage, CheckPort, CheckPath, CheckAuth, CheckEnv, CheckResources, CheckEgress,
         ImageIs, PortIs, PathIs, AuthIs, EnvIs, ResourcesAre, EgressIs;
    SlugMeans(Trim(raw.name));
    EmptyIsNoSlug();
    ScalarsMean(raw.image, raw.port, raw.path, raw.upstreamAuth);
    EnvMeans(raw.env);
    ResourcesMean(raw.resources);
    EgressMeans(serde, raw.egress);
  }

  lemma EmptyIsNoSlug()
    ensures !Slug("")
  {
  }

  /** A nameless entry and a bad name are refused as such, a set network next; then the first field at fault decides. */
  lemma FaultsInOrder(serde: Serde, raw: RawPlugin)
    ensures var r, name := CheckPlugin(serde, raw), Trim(raw.name);
            && (r == Err(EmptyName("plugins[].name")) <==> name == "")
            && (r == Err(PluginInvalid(name, BadName)) <== name != "" && !Slug(name))
            && (r == Err(PluginInvalid(name, NetworkSet)) <== Slug(name) && raw.network.Some?)
    ensures Slug(Trim(raw.name)) && raw.network == None ==>
              var name, r := Trim(raw.name), CheckPlugin(serde, raw);
              && (CheckImage(raw.image).Err? ==> r == Err(PluginInvalid(name, CheckImage(raw.image).error)))
              && (CheckImage(raw.image).Ok? && CheckPort(raw.port).Err? ==> r == Err(PluginInvalid(name, BadPort)))
              && (CheckImage(raw.image).Ok? && CheckPort(raw.port).Ok? ==>
                    && (CheckPath(raw.path).Err? ==> r == Err(PluginInvalid(name, CheckPath(raw.path).error)))
                    && (CheckPath(raw.path).Ok? ==>
                          && (CheckAuth(raw.upstreamAuth).Err? ==> r == Err(PluginInvalid(name, CheckAuth(raw.upstreamAuth).error)))
                          && (CheckAuth(raw.upstreamAuth).Ok? ==>
                                && (CheckEnv(raw.env).Err? ==> r == Err(PluginInvalid(name, CheckEnv(raw.env).error)))
                                && (CheckEnv(raw.env).Ok? && CheckResources(raw.resources).Err? ==>
                                      r == Err(PluginInvalid(name, CheckResources(raw.resources).error)))
                                && (CheckEnv(raw.env).Ok? && CheckResources(raw.resources).Ok? && CheckEgress(serde, raw.egress).Err? ==>
                                      r == Err(PluginInvalid(name, CheckEgress(serde, raw.egress).error))))))
  {
    hide Trim, ValidName, Slug, CheckImage, CheckPath, CheckAuth, CheckEnv, CheckResources, CheckEgress;
    SlugMeans(Trim(raw.name));
    EmptyIsNoSlug();
  }

  // --- A binding's config ---

  /**
   * Absent, null and the empty mapping are no config; an object that fits is itself; what has no JSON form, what is
   * no object, such as a list, and what is over 64 KiB are refused, each as what it is.
   */
  lemma ConfigMeans(serde: Serde, context: string, raw: Option<Yaml>)
    ensures var r := CheckConfig(serde, context, raw);
            && (raw == None || raw == Some(YNull) ==> r == Ok(None))
            && (raw.Some? && raw.value != YNull ==>
                  match serde.toJson(raw.value)
                  case None => r == Err(BindingInvalid(context, ConfigJson))
                  case Some(JObject(fields)) =>
                    if fields == map[] then r == Ok(None)
                    else if serde.size(JObject(fields)) <= 65536 then r == Ok(Some(JObject(fields)))
                    else r == Err(BindingInvalid(context, ConfigTooLong))
                  case Some(_) => r == Err(BindingInvalid(context, ConfigShape)))
  {
  }

  // --- Lengths ---

  /** A text is as long as its characters' UTF-8 forms together; below 128 each has one byte, below 2048 two, below 65536 three. */
  lemma {:induction false} LengthsAdd(a: string, b: string)
    ensures ByteLength(a + b) == ByteLength(a) + ByteLength(b)
  {
    if b == "" {
      assert a + b == a;
    } else {
      assert (a + b)[..|a + b| - 1] == a + b[..|b| - 1];
      LengthsAdd(a, b[..|b| - 1]);
    }
  }

  lemma LengthOfOne(c: char)
    ensures ByteLength("") == 0
    ensures ByteLength([c]) == if c as int < 128 then 1 else if c as int < 2048 then 2 else if c as int < 65536 then 3 else 4
  {
    assert [c][..0] == "";
  }
}
