/** The `WWW-Authenticate` value of a 401, and the header grammar it has to satisfy. */
module ErrorResponse {
  import opened Wrappers
  import opened Text

  datatype ErrorCode = MissingBearer | InvalidBearer | ExpiredLease | RevokedLease

  function CodeText(code: ErrorCode): string {
    match code
    case MissingBearer => "missing_bearer"
    case InvalidBearer => "invalid_bearer"
    case ExpiredLease => "expired_lease"
    case RevokedLease => "revoked_lease"
  }

  function Realm(tenant: Option<string>): string {
    match tenant
    case Some(t) => "botspace/" + t
    case None => "botspace/"
  }

  function EscapeQuotedString(value: string): string {
    Replace(Replace(value, '\\', "\\\\"), '"', "\\\"")
  }

  function WwwAuthenticateValue(code: ErrorCode, tenant: Option<string>, description: string): string {
    "Bearer realm=\"" + (EscapeQuotedString(Realm(tenant))
    + ("\", error=\"" + (CodeText(code)
    + ("\", error_description=\"" + (EscapeQuotedString(description) + "\"")))))
  }

  // --- One pass instead of two ---

  /** Put a backslash before each backslash and each double quote. */
  function EscapeEach(value: string): string {
    if value == "" then ""
    else
      var c := value[0];
      (if c == '\\' || c == '"' then ['\\', c] else [c]) + EscapeEach(value[1..])
  }

  lemma ReplacePair(c: char, d: char, repl: string)
    ensures Replace([c], d, repl) == if c == d then repl else [c]
    ensures c != d ==> Replace([c, c], d, repl) == [c, c]
  {
    assert [c, c][1..] == [c];
    assert [c][1..] == "";
  }

  /** The second replacement does not disturb the backslashes the first one inserted. */
  lemma {:induction false} TwoReplacesAreOneEscape(value: string)
    ensures EscapeQuotedString(value) == EscapeEach(value)
  {
    if value != "" {
      var c := value[0];
      var first := if c == '\\' then "\\\\" else [c];
      ReplaceConcat(first, Replace(value[1..], '\\', "\\\\"), '"', "\\\"");
      ReplacePair(c, '"', "\\\"");
      TwoReplacesAreOneEscape(value[1..]);
    }
  }

  // --- The grammar of section 3.2.6 of RFC 7230 ---

  predicate Tchar(c: char) {
    'A' <= c <= 'Z' || 'a' <= c <= 'z' || '0' <= c <= '9' || c in "!#$%&'*+-.^_`|~"
  }

  /** HTAB, SP, a visible character, or obs-text: what a quoted string can carry. */
  predicate Quotable(c: char) {
    c == '\t' || ' ' <= c <= '~' || c >= '\U{0080}'
  }

  /** The octets allowed unescaped in a quoted string. */
  predicate QdText(c: char) {
    Quotable(c) && c != '"' && c != '\\'
  }

  function TokenLength(s: string): (n: nat)
    ensures n <= |s|
  {
    if s != "" && Tchar(s[0]) then 1 + TokenLength(s[1..]) else 0
  }

  /** The rest of a quoted string after its opening quote: its value, and what follows the closing quote. */
  function QuotedBody(s: string): (r: Option<(string, string)>)
    ensures r.Some? ==> |r.value.1| < |s|
  {
    if s == "" then None
    else if s[0] == '"' then Some(("", s[1..]))
    else if s[0] == '\\' then
      if |s| >= 2 && Quotable(s[1]) then
        match QuotedBody(s[2..])
        case Some((v, rest)) => Some(([s[1]] + v, rest))
        case None => None
      else None
    else if QdText(s[0]) then
      match QuotedBody(s[1..])
      case Some((v, rest)) => Some(([s[0]] + v, rest))
      case None => None
    else None
  }

  function SkipSpace(s: string): (r: string)
    ensures |r| <= |s|
  {
    if s != "" && (s[0] == ' ' || s[0] == '\t') then SkipSpace(s[1..]) else s
  }

  type Params = seq<(string, string)>

  /** `token "=" quoted-string`, separated by commas with optional whitespace. */
  function AuthParams(s: string): Option<Params>
    decreases |s|
  {
    var n := TokenLength(s);
    if n == 0 || !("=\"" <= s[n..]) then None
    else
      match QuotedBody(s[n + 2..])
      case None => None
      case Some((value, rest)) =>
        var after := SkipSpace(rest);
        if after == "" then (if rest == "" then Some([(s[..n], value)]) else None)
        else if after[0] != ',' then None
        else
          match AuthParams(SkipSpace(after[1..]))
          case Some(more) => Some([(s[..n], value)] + more)
          case None => None
  }

  /** `auth-scheme 1*SP auth-params`. */
  function Challenge(s: string): Option<(string, Params)> {
    var n := TokenLength(s);
    if n == 0 || !(" " <= s[n..]) then None
    else
      match AuthParams(SkipSpace(s[n..]))
      case Some(params) => Some((s[..n], params))
      case None => None
  }

  // --- Printing and parsing ---

  predicate AllQuotable(s: string) {
    forall i :: 0 <= i < |s| ==> Quotable(s[i])
  }

  lemma Assoc(a: string, b: string, c: string)
    ensures a + b + c == a + (b + c)
  {
  }

  /** Reading past one character written by the escape. */
  lemma QuotedStep(c: char, tail: string)
    ensures QuotedBody(EscapeEach([c]) + tail)
         == if Quotable(c) && QuotedBody(tail).Some? then
              Some(([c] + QuotedBody(tail).value.0, QuotedBody(tail).value.1))
            else None
  {
    assert EscapeEach([c][1..]) == "";
    var s := EscapeEach([c]) + tail;
    if c == '\\' || c == '"' {
      assert s == ['\\', c] + tail && s[2..] == tail;
    } else {
      assert s == [c] + tail && s[1..] == tail;
    }
  }

  lemma EscapeHead(value: string)
    requires value != ""
    ensures EscapeEach(value) == EscapeEach([value[0]]) + EscapeEach(value[1..])
  {
    var one := [value[0]];
    assert EscapeEach(one[1..]) == "";
    assert EscapeEach(one) == if one[0] == '\\' || one[0] == '"' then ['\\', one[0]] else one;
  }

  lemma QuotableHead(value: string)
    requires value != ""
    ensures AllQuotable(value) <==> Quotable(value[0]) && AllQuotable(value[1..])
  {
    assert forall i :: 1 <= i < |value| ==> value[i] == value[1..][i - 1];
    assert forall i :: 0 <= i < |value[1..]| ==> value[1..][i] == value[i + 1];
  }

  lemma {:induction false} QuotedEscape(value: string, rest: string)
    ensures QuotedBody(EscapeEach(value) + ("\"" + rest)) == if AllQuotable(value) then Some((value, rest)) else None
  {
    if value == "" {
      assert EscapeEach(value) + ("\"" + rest) == "\"" + rest;
    } else {
      var c, more, end := value[0], value[1..], "\"" + rest;
      EscapeHead(value);
      QuotableHead(value);
      QuotedEscape(more, rest);
      QuotedStep(c, EscapeEach(more) + end);
      Assoc(EscapeEach([c]), EscapeEach(more), end);
      assert value == [c] + more;
    }
  }

  lemma {:induction false} TokenThen(token: string, rest: string)
    requires forall i :: 0 <= i < |token| ==> Tchar(token[i])
    requires rest == "" || !Tchar(rest[0])
    ensures TokenLength(token + rest) == |token|
  {
    if token == "" {
      assert token + rest == rest;
    } else {
      assert (token + rest)[1..] == token[1..] + rest;
      TokenThen(token[1..], rest);
    }
  }

  predicate Token(s: string) {
    s != "" && forall i :: 0 <= i < |s| ==> Tchar(s[i])
  }

  /** `name "=" quoted-string`, followed by `after`. */
  function Param(name: string, value: string, after: string): string {
    name + ("=\"" + (EscapeEach(value) + ("\"" + after)))
  }

  lemma ParamScan(name: string, value: string, after: string)
    requires Token(name)
    ensures var s := Param(name, value, after);
            && TokenLength(s) == |name| && s[..|name|] == name && "=\"" <= s[|name|..]
            && QuotedBody(s[|name| + 2..]) == if AllQuotable(value) then Some((value, after)) else None
  {
    var body := EscapeEach(value) + ("\"" + after);
    var s := Param(name, value, after);
    TokenThen(name, "=\"" + body);
    QuotedEscape(value, after);
    assert s[..|name|] == name && s[|name|..] == "=\"" + body && s[|name| + 2..] == body;
  }

  lemma LastParam(name: string, value: string)
    requires Token(name)
    ensures AuthParams(Param(name, value, "")) == if AllQuotable(value) then Some([(name, value)]) else None
  {
    ParamScan(name, value, "");
  }

  lemma ParamNotEmpty(name: string, value: string, after: string)
    requires Token(name)
    ensures name != "" && Param(name, value, after) != "" && |Param(name, value, after)| >= |name| + 2
  {
  }

  lemma ParamThen(name: string, value: string, more: string)
    requires Token(name) && more != "" && Tchar(more[0])
    ensures AuthParams(Param(name, value, ", " + more))
         == if !AllQuotable(value) || AuthParams(more) == None then None
            else Some([(name, value)] + AuthParams(more).value)
  {
    hide Param, QuotedBody, AllQuotable, Token, TokenLength;
    ParamScan(name, value, ", " + more);
    ParamNotEmpty(name, value, ", " + more);
    var after := ", " + more;
    assert SkipSpace(after) == after;
    assert after[1..] == " " + more && (" " + more)[1..] == more;
    assert SkipSpace(after[1..]) == more;
  }

  /** A challenge of three parameters. */
  function Header(scheme: string, n1: string, v1: string, n2: string, v2: string, n3: string, v3: string): string {
    scheme + (" " + Param(n1, v1, ", " + Param(n2, v2, ", " + Param(n3, v3, ""))))
  }

  lemma SchemeThen(scheme: string, params: string)
    requires Token(scheme) && params != "" && Tchar(params[0])
    ensures Challenge(scheme + (" " + params))
         == if AuthParams(params).Some? then Some((scheme, AuthParams(params).value)) else None
  {
    hide AuthParams, TokenLength;
    TokenThen(scheme, " " + params);
    var s := scheme + (" " + params);
    assert s[..|scheme|] == scheme && s[|scheme|..] == " " + params && (" " + params)[1..] == params;
    assert SkipSpace(s[|scheme|..]) == params;
  }

  lemma ParamBegins(name: string, value: string, after: string)
    requires Token(name)
    ensures Param(name, value, after) != "" && Tchar(Param(name, value, after)[0])
  {
  }

  lemma ParseHeader(scheme: string, n1: string, v1: string, n2: string, v2: string, n3: string, v3: string)
    requires Token(scheme) && Token(n1) && Token(n2) && Token(n3)
    ensures Challenge(Header(scheme, n1, v1, n2, v2, n3, v3))
         == if AllQuotable(v1) && AllQuotable(v2) && AllQuotable(v3) then
              Some((scheme, [(n1, v1), (n2, v2), (n3, v3)]))
            else None
  {
    hide Challenge, AuthParams, AllQuotable, Token, Param, Tchar;
    var p3 := Param(n3, v3, "");
    var p2 := Param(n2, v2, ", " + p3);
    var p1 := Param(n1, v1, ", " + p2);
    ParamBegins(n3, v3, "");
    ParamBegins(n2, v2, ", " + p3);
    ParamBegins(n1, v1, ", " + p2);
    LastParam(n3, v3);
    ParamThen(n2, v2, p3);
    ParamThen(n1, v1, p2);
    SchemeThen(scheme, p1);
    assert [(n1, v1)] + ([(n2, v2)] + [(n3, v3)]) == [(n1, v1), (n2, v2), (n3, v3)];
  }

  lemma {:induction false} EscapePlain(s: string)
    requires Token(s) || s == ""
    ensures EscapeEach(s) == s && AllQuotable(s)
  {
    if s != "" {
      EscapeHead(s);
      EscapePlain(s[1..]);
      assert s == [s[0]] + s[1..];
    }
  }

  lemma Tokens(code: ErrorCode)
    ensures Token("Bearer") && Token("realm") && Token("error") && Token("error_description")
    ensures Token(CodeText(code))
  {
  }

  lemma FlatParam(before: string, name: string, literal: string, value: string, after: string)
    requires before + name + "=\"" == literal
    ensures before + Param(name, value, after) == literal + (EscapeEach(value) + ("\"" + after))
  {
    var rest := EscapeEach(value) + ("\"" + after);
    Assoc(before + name, "=\"", rest);
    Assoc(before, name, "=\"" + rest);
  }

  lemma NextParam(name: string, literal: string, value: string, after: string)
    requires "\", " + name + "=\"" == literal
    ensures "\"" + (", " + Param(name, value, after)) == literal + (EscapeEach(value) + ("\"" + after))
  {
    Assoc("\"", ", ", Param(name, value, after));
    assert "\"" + ", " == "\", ";
    FlatParam("\", ", name, literal, value, after);
  }

  lemma Regroup(scheme: string, n1: string, v1: string, n2: string, v2: string, n3: string, v3: string,
                l1: string, l2: string, l3: string)
    requires scheme + " " + n1 + "=\"" == l1
    requires "\", " + n2 + "=\"" == l2 && "\", " + n3 + "=\"" == l3
    ensures Header(scheme, n1, v1, n2, v2, n3, v3)
         == l1 + (EscapeEach(v1) + (l2 + (EscapeEach(v2) + (l3 + (EscapeEach(v3) + "\"")))))
  {
    var p3 := Param(n3, v3, "");
    var p2 := Param(n2, v2, ", " + p3);
    Assoc(scheme, " ", Param(n1, v1, ", " + p2));
    FlatParam(scheme + " ", n1, l1, v1, ", " + p2);
    NextParam(n2, l2, v2, ", " + p3);
    NextParam(n3, l3, v3, "");
    assert "\"" + "" == "\"";
  }

  lemma Literals()
    ensures "Bearer" + " " + "realm" + "=\"" == "Bearer realm=\""
    ensures "\", " + "error" + "=\"" == "\", error=\""
    ensures "\", " + "error_description" + "=\"" == "\", error_description=\""
  {
  }

  /** The formatted value is a challenge of the three named parameters. */
  lemma ValueShape(code: ErrorCode, tenant: Option<string>, description: string)
    ensures WwwAuthenticateValue(code, tenant, description)
         == Header("Bearer", "realm", Realm(tenant), "error", CodeText(code), "error_description", description)
  {
    Literals();
    Tokens(code);
    EscapePlain(CodeText(code));
    TwoReplacesAreOneEscape(Realm(tenant));
    TwoReplacesAreOneEscape(description);
    Regroup("Bearer", "realm", Realm(tenant), "error", CodeText(code), "error_description", description,
            "Bearer realm=\"", "\", error=\"", "\", error_description=\"");
  }

  lemma RealmQuotable(tenant: Option<string>)
    ensures AllQuotable(Realm(tenant)) <==> (tenant.Some? ==> AllQuotable(tenant.value))
  {
    match tenant
    case None =>
    case Some(t) =>
      var r := Realm(tenant);
      assert forall i :: 0 <= i < |t| ==> r[9 + i] == t[i];
  }

  lemma PrintedParses(code: ErrorCode, tenant: Option<string>, description: string)
    ensures Challenge(WwwAuthenticateValue(code, tenant, description))
         == if (tenant.Some? ==> AllQuotable(tenant.value)) && AllQuotable(description) then
              Some(("Bearer", [("realm", Realm(tenant)), ("error", CodeText(code)), ("error_description", description)]))
            else None
  {
    ValueShape(code, tenant, description);
    RealmQuotable(tenant);
    Tokens(code);
    EscapePlain(CodeText(code));
    ParseHeader("Bearer", "realm", Realm(tenant), "error", CodeText(code), "error_description", description);
  }

  lemma TextsMean(code: ErrorCode, tenant: Option<string>)
    ensures CodeText(code) == match code
                              case MissingBearer => "missing_bearer"
                              case InvalidBearer => "invalid_bearer"
                              case ExpiredLease => "expired_lease"
                              case RevokedLease => "revoked_lease"
    ensures Realm(tenant) == "botspace/" + if tenant.Some? then tenant.value else ""
  {
    assert "botspace/" + "" == "botspace/";
  }

  /**
   * For any tenant and description, the header grammar reads the printed value back as exactly the realm,
   * the error code and the description, provided neither holds a control character other than a tab; with
   * such a character the value is not a challenge at all.
   */
  lemma ParsePrinted(code: ErrorCode, tenant: Option<string>, description: string)
    ensures Challenge(WwwAuthenticateValue(code, tenant, description))
         == if (tenant.Some? ==> AllQuotable(tenant.value)) && AllQuotable(description) then
              Some(("Bearer", [("realm", "botspace/" + if tenant.Some? then tenant.value else ""),
                               ("error", match code
                                         case MissingBearer => "missing_bearer"
                                         case InvalidBearer => "invalid_bearer"
                                         case ExpiredLease => "expired_lease"
                                         case RevokedLease => "revoked_lease"),
                               ("error_description", description)]))
            else None
  {
    hide Challenge, AllQuotable, WwwAuthenticateValue, CodeText, Realm;
    PrintedParses(code, tenant, description);
    TextsMean(code, tenant);
  }
}
