/** Names, and the classification of the original request path. */
module Grammar {
  import opened Wrappers
  import opened Text

  datatype NameError = Invalid | Reserved

  datatype ParsedPath =
    | ApiAuthLogin
    | ApiAuthProtected
    | Api(scope: Option<string>)
    | Spa(tenant: string)
    | Mcp(tenant: string, workspace: string, plugin: string)

  const RESERVED_TENANT_NAMES := ["admin", "api", "auth", "static", "stats", "logs"]

  predicate NameChar(c: char) {
    'A' <= c <= 'Z' || 'a' <= c <= 'z' || '0' <= c <= '9' || c == '_' || c == '-'
  }

  /** Matches `^[A-Za-z0-9_-]{1,63}$`. */
  predicate WellFormedName(name: string) {
    1 <= |name| <= 63 && forall i :: 0 <= i < |name| ==> NameChar(name[i])
  }

  predicate IsReserved(name: string) {
    exists i :: 0 <= i < |RESERVED_TENANT_NAMES| && Lower(RESERVED_TENANT_NAMES[i]) == Lower(name)
  }

  function ValidateName(name: string, reserved: bool): Result<(), NameError> {
    if !WellFormedName(name) then Err(Invalid)
    else if reserved && IsReserved(name) then Err(Reserved)
    else Ok(())
  }

  predicate ValidTenant(name: string) {
    ValidateName(name, true).Ok?
  }

  /** Workspace and plugin names have no reserved list. */
  predicate ValidName(name: string) {
    ValidateName(name, false).Ok?
  }

  // --- Names, written out ---

  predicate PlainName(name: string) {
    && 1 <= |name| <= 63
    && forall i :: 0 <= i < |name| ==>
         'A' <= name[i] <= 'Z' || 'a' <= name[i] <= 'z' || '0' <= name[i] <= '9' || name[i] == '_' || name[i] == '-'
  }

  predicate TenantNameAllowed(name: string) {
    PlainName(name) && Lower(name) !in {"admin", "api", "auth", "static", "stats", "logs"}
  }

  lemma NamesMean(name: string)
    ensures ValidTenant(name) <==> TenantNameAllowed(name)
    ensures ValidName(name) <==> PlainName(name)
    ensures ValidateName(name, true) == Err(Invalid) <==> !PlainName(name)
    ensures ValidateName(name, true) == Err(Reserved) <==> PlainName(name) && !TenantNameAllowed(name)
  {
    ReservedMeans(name);
  }

  lemma ReservedMeans(name: string)
    ensures IsReserved(name) <==> Lower(name) in {"admin", "api", "auth", "static", "stats", "logs"}
  {
    var names := RESERVED_TENANT_NAMES;
    assert names[0] == "admin" && names[1] == "api" && names[2] == "auth" && names[3] == "static" && names[4] == "stats" && names[5] == "logs";
    forall i | 0 <= i < |names|
      ensures Lower(names[i]) == names[i]
    {
    }
  }

  // --- Path segments ---

  /** `split('/')`: the pieces between slashes, empty ones included; there is always at least one. */
  function Split(path: string): (r: seq<string>)
    ensures |r| >= 1
    ensures forall i :: 0 <= i < |r| ==> '/' !in r[i]
  {
    if path == "" then [""]
    else
      var rest := Split(path[1..]);
      if path[0] == '/' then [""] + rest else [[path[0]] + rest[0]] + rest[1..]
  }

  function NonEmpty(pieces: seq<string>): seq<string> {
    if pieces == [] then []
    else (if pieces[0] == "" then [] else [pieces[0]]) + NonEmpty(pieces[1..])
  }

  function Segments(path: string): seq<string> {
    NonEmpty(Split(path))
  }

  const AUTH_PREFIX := "/api/auth/"

  /** `trim_start_matches`: drop the prefix for as long as it is there. */
  function StripAll(path: string): string {
    if AUTH_PREFIX <= path then StripAll(path[|AUTH_PREFIX|..]) else path
  }

  function ParseOriginalPath(path: string): Option<ParsedPath> {
    if path == "/api/auth/login" || "/api/auth/login/" <= path then Some(ApiAuthLogin)
    else if path == "/api/auth" then None
    else if AUTH_PREFIX <= path then
      if StripAll(path) != "" then Some(ApiAuthProtected) else None
    else if path == "/api" || "/api/" <= path then
      var segments := Segments(path);
      if segments == [] then None
      else if |segments| >= 2 && segments[1] == "tenant" then
        if |segments| >= 3 && ValidTenant(segments[2]) then Some(Api(Some(segments[2]))) else None
      else Some(Api(None))
    else
      var segments := Segments(path);
      if |segments| == 1 && ValidTenant(segments[0]) then Some(Spa(segments[0]))
      else if |segments| >= 3 && ValidTenant(segments[0]) && ValidName(segments[1]) && ValidName(segments[2]) then
        Some(Mcp(segments[0], segments[1], segments[2]))
      else None
  }

  // --- Printing and parsing agree ---

  predicate Slashes(s: string) {
    forall i :: 0 <= i < |s| ==> s[i] == '/'
  }

  lemma {:induction false} SegmentsSkipSlashes(slashes: string, path: string)
    requires Slashes(slashes)
    ensures Segments(slashes + path) == Segments(path)
  {
    if slashes == "" {
      assert slashes + path == path;
    } else {
      assert (slashes + path)[1..] == slashes[1..] + path;
      SegmentsSkipSlashes(slashes[1..], path);
      assert Split(slashes + path)[1..] == Split(slashes[1..] + path);
    }
  }

  lemma {:induction false} SplitPiece(piece: string, rest: string)
    requires '/' !in piece
    requires rest == "" || rest[0] == '/'
    ensures Split(piece + rest)[0] == piece && Split(piece + rest)[1..] == Split(rest)[1..]
  {
    if piece == "" {
      assert piece + rest == rest;
    } else {
      assert (piece + rest)[1..] == piece[1..] + rest;
      SplitPiece(piece[1..], rest);
      assert piece == [piece[0]] + piece[1..];
    }
  }

  /** A non-empty piece ended by a slash or by the end of the path is the first segment. */
  lemma SegmentsFirst(piece: string, rest: string)
    requires piece != "" && '/' !in piece
    requires rest == "" || rest[0] == '/'
    ensures Segments(piece + rest) == [piece] + Segments(rest)
  {
    SplitPiece(piece, rest);
    if rest == "" {
      assert Split(rest) == [""];
    } else {
      assert Split(rest)[0] == "";
    }
  }

  lemma NameHasNoSlash(name: string)
    requires WellFormedName(name)
    ensures name != "" && '/' !in name && ':' !in name
  {
  }

  lemma SlashesThenName(slashes: string, name: string, rest: string)
    requires Slashes(slashes) && WellFormedName(name)
    requires rest == "" || rest[0] == '/'
    ensures Segments(slashes + (name + rest)) == [name] + Segments(rest)
  {
    NameHasNoSlash(name);
    SegmentsFirst(name, rest);
    SegmentsSkipSlashes(slashes, name + rest);
  }

  /** A path of three names, with any number of slashes around them and any further segments. */
  function McpPath(lead: string, tenant: string, s1: string, workspace: string, s2: string, plugin: string, tail: string): string {
    lead + (tenant + (s1 + (workspace + (s2 + (plugin + tail)))))
  }

  lemma ValidIsWellFormed(name: string)
    ensures ValidTenant(name) ==> WellFormedName(name)
    ensures ValidName(name) ==> WellFormedName(name)
  {
  }

  lemma McpSegments(lead: string, tenant: string, s1: string, workspace: string, s2: string, plugin: string, tail: string)
    requires ValidTenant(tenant) && ValidName(workspace) && ValidName(plugin)
    requires Slashes(lead) && Slashes(s1) && Slashes(s2) && s1 != "" && s2 != ""
    requires tail == "" || tail[0] == '/'
    ensures Segments(McpPath(lead, tenant, s1, workspace, s2, plugin, tail)) == [tenant, workspace, plugin] + Segments(tail)
  {
    hide Segments, WellFormedName, ValidTenant, ValidName;
    ValidIsWellFormed(tenant);
    ValidIsWellFormed(workspace);
    ValidIsWellFormed(plugin);
    SlashesThenName(s2, plugin, tail);
    SlashesThenName(s1, workspace, s2 + (plugin + tail));
    SlashesThenName(lead, tenant, s1 + (workspace + (s2 + (plugin + tail))));
  }

  /** The first segment of anything the fixed `/api` rules catch is `api`. */
  lemma ApiFirst(path: string)
    requires path == "/api" || "/api/" <= path
    ensures Segments(path) != [] && Segments(path)[0] == "api"
  {
    var rest := path[4..];
    assert path == "/" + ("api" + rest);
    SegmentsSkipSlashes("/", "api" + rest);
    SegmentsFirst("api", rest);
  }

  lemma ApiReserved(name: string)
    requires Lower(name) == "api"
    ensures IsReserved(name)
  {
    assert RESERVED_TENANT_NAMES[1] == "api";
    assert Lower("api") == "api";
  }

  /** Which rule answers is settled by the first segment alone. */
  lemma NotApi(path: string)
    requires Segments(path) != [] && Segments(path)[0] != "api"
    ensures !(path == "/api" || "/api/" <= path)
  {
    if path == "/api" || "/api/" <= path {
      ApiFirst(path);
    }
  }

  lemma PrefixFacts(path: string)
    requires !(path == "/api" || "/api/" <= path)
    ensures !(path == "/api/auth/login" || "/api/auth/login/" <= path)
    ensures path != "/api/auth" && !(AUTH_PREFIX <= path)
  {
  }

  /**
   * Printing a triple and parsing it back: any valid, non-reserved tenant with any valid workspace and
   * plugin, however many slashes separate them and whatever follows.
   */
  lemma ParsePrintedMcp(lead: string, tenant: string, s1: string, workspace: string, s2: string, plugin: string, tail: string)
    requires ValidTenant(tenant) && ValidName(workspace) && ValidName(plugin)
    requires Slashes(lead) && Slashes(s1) && Slashes(s2) && s1 != "" && s2 != ""
    requires tail == "" || tail[0] == '/'
    ensures ParseOriginalPath(McpPath(lead, tenant, s1, workspace, s2, plugin, tail)) == Some(Mcp(tenant, workspace, plugin))
  {
    var path := McpPath(lead, tenant, s1, workspace, s2, plugin, tail);
    McpSegments(lead, tenant, s1, workspace, s2, plugin, tail);
    if tenant == "api" {
      assert Lower(tenant) == "api";
      ApiReserved(tenant);
    }
    NotApi(path);
    PrefixFacts(path);
  }

  lemma LowerApi()
    ensures Lower("api") == "api"
  {
  }

  /** A bare tenant, with any slashes before and after it. */
  lemma ParsePrintedSpa(lead: string, tenant: string, trail: string)
    requires ValidTenant(tenant) && Slashes(lead) && Slashes(trail)
    ensures ParseOriginalPath(lead + (tenant + trail)) == Some(Spa(tenant))
  {
    var path := lead + (tenant + trail);
    NameHasNoSlash(tenant);
    SegmentsFirst(tenant, trail);
    SegmentsSkipSlashes(lead, tenant + trail);
    SegmentsSkipSlashes(trail, "");
    assert trail + "" == trail;
    assert Segments("") == [];
    if tenant == "api" {
      LowerApi();
      ApiReserved(tenant);
    }
    NotApi(path);
    PrefixFacts(path);
  }

  /**
   * Everything classed under a tenant names that tenant by its path segments, and never names a reserved
   * one in any letter case.
   */
  lemma ClassedTenant(path: string)
    ensures match ParseOriginalPath(path)
            case Some(Spa(t)) => Segments(path) == [t] && WellFormedName(t) && !IsReserved(t)
            case Some(Mcp(t, w, p)) =>
              [t, w, p] <= Segments(path) && WellFormedName(t) && !IsReserved(t) && WellFormedName(w) && WellFormedName(p)
            case Some(Api(Some(t))) => ["api", "tenant", t] <= Segments(path) && WellFormedName(t) && !IsReserved(t)
            case _ => true
  {
    if path == "/api" || "/api/" <= path {
      ApiFirst(path);
    }
  }

  function Repeat(n: nat): string {
    if n == 0 then "" else AUTH_PREFIX + Repeat(n - 1)
  }

  lemma {:induction false} StripAllRepeat(n: nat)
    ensures StripAll(Repeat(n)) == ""
  {
    if n > 0 {
      assert Repeat(n)[|AUTH_PREFIX|..] == Repeat(n - 1);
      StripAllRepeat(n - 1);
    }
  }

  lemma {:induction false} RepeatOfStripAll(path: string) returns (n: nat)
    requires StripAll(path) == ""
    ensures path == Repeat(n) && n * |AUTH_PREFIX| == |path|
  {
    if path == "" {
      n := 0;
    } else {
      var m := RepeatOfStripAll(path[|AUTH_PREFIX|..]);
      n := m + 1;
      assert path == AUTH_PREFIX + path[|AUTH_PREFIX|..];
    }
  }

  lemma RepeatEleventh(n: nat)
    ensures |Repeat(n)| <= 10 || Repeat(n)[10] == '/'
  {
    if n >= 2 {
      assert Repeat(n) == AUTH_PREFIX + (AUTH_PREFIX + Repeat(n - 2));
    }
  }

  /** The prefix and nothing else, any number of times. */
  ghost predicate OnlyPrefix(path: string) {
    exists n: nat :: n >= 1 && path == Repeat(n)
  }

  /** Under the authentication prefix, the rejected paths are exactly its repetitions. */
  lemma AuthRejectedIff(path: string)
    requires AUTH_PREFIX <= path
    ensures ParseOriginalPath(path) == None <==> OnlyPrefix(path)
  {
    if path == "/api/auth/login" || "/api/auth/login/" <= path {
      assert path[10] == "/api/auth/login"[10] == 'l';
      forall n: nat
        ensures path != Repeat(n)
      {
        RepeatEleventh(n);
      }
    } else {
      assert path != "/api/auth";
      if StripAll(path) == "" {
        var n := RepeatOfStripAll(path);
        assert n >= 1;
      }
      if OnlyPrefix(path) {
        var n: nat :| n >= 1 && path == Repeat(n);
        StripAllRepeat(n);
      }
    }
  }

  // --- Which paths get which answer ---

  predicate UnderApi(path: string) {
    path == "/api" || "/api/" <= path
  }

  predicate ElsewhereUnderApi(path: string) {
    UnderApi(path) && path != "/api/auth" && !("/api/auth/" <= path)
  }

  predicate UnderLogin(path: string) {
    path == "/api/auth/login" || "/api/auth/login/" <= path
  }

  /**
   * The answers one by one: the login's own paths; everything else under the authentication prefix, save the prefix
   * itself; the api's other paths, with the tenant they name if they name one; and one or three names elsewhere.
   */
  lemma AnswersMean(path: string)
    ensures ParseOriginalPath(path) == Some(ApiAuthLogin) <==> UnderLogin(path)
    ensures ParseOriginalPath(path) == Some(ApiAuthProtected) <==> "/api/auth/" <= path && !UnderLogin(path) && !OnlyPrefix(path)
    ensures ParseOriginalPath(path) == Some(Api(None)) <==>
              ElsewhereUnderApi(path) && (|Segments(path)| < 2 || Segments(path)[1] != "tenant")
    ensures forall t :: ParseOriginalPath(path) == Some(Api(Some(t))) <==>
              ElsewhereUnderApi(path) && |Segments(path)| >= 3 && Segments(path)[1] == "tenant" && Segments(path)[2] == t
              && TenantNameAllowed(t)
    ensures forall t :: ParseOriginalPath(path) == Some(Spa(t)) <==>
              !UnderApi(path) && Segments(path) == [t] && TenantNameAllowed(t)
    ensures forall t, w, p :: ParseOriginalPath(path) == Some(Mcp(t, w, p)) <==>
              !UnderApi(path) && [t, w, p] <= Segments(path) && TenantNameAllowed(t) && PlainName(w) && PlainName(p)
  {
    hide Segments, ValidTenant, ValidName, TenantNameAllowed, PlainName, StripAll;
    var segments := Segments(path);
    forall i | 0 <= i < |segments|
      ensures ValidTenant(segments[i]) <==> TenantNameAllowed(segments[i])
      ensures ValidName(segments[i]) <==> PlainName(segments[i])
    {
      NamesMean(segments[i]);
    }
    if AUTH_PREFIX <= path {
      AuthRejectedIff(path);
    }
    PrefixesNest(path);
    if UnderApi(path) {
      ApiFirst(path);
    } else {
      PrefixFacts(path);
    }
    if |segments| >= 3 {
      assert segments[..3] == [segments[0], segments[1], segments[2]];
    }
  }

  lemma PrefixesNest(path: string)
    ensures UnderLogin(path) ==> AUTH_PREFIX <= path
    ensures AUTH_PREFIX <= path ==> "/api/" <= path && path != "/api/auth" && path != "/api"
  {
    assert "/api/auth/login"[..10] == AUTH_PREFIX && "/api/auth/login/"[..10] == AUTH_PREFIX;
    assert AUTH_PREFIX[..5] == "/api/";
  }
}
