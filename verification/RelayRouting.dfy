/**
 * The routing decisions of `scripts/intendant-mcp-relay.py`: the wrapped protocol session, and
 * the terminal handle found in a tool call. JSON is already parsed; UTF-8 validity is a parameter.
 */
module RelayRouting {
  import opened Common
  import Base64Url

  /** A request's JSON-RPC id, in whatever JSON form it came. */
  type RequestId = Option<string>

  datatype Route = Route(bootId: string, requestId: RequestId)

  datatype RouteError = RouteError(code: string, requestId: RequestId, deliveryUnknown: bool)

  // ---------------------------------------------------------------------------------------
  // Strings.
  // ---------------------------------------------------------------------------------------

  function Split(s: string, sep: char): (fields: seq<string>)
    ensures |fields| >= 1
  {
    if s == "" then [""]
    else
      var rest := Split(s[1..], sep);
      if s[0] == sep then [""] + rest else [[s[0]] + rest[0]] + rest[1..]
  }

  function Join(fields: seq<string>, sep: char): string {
    if fields == [] then ""
    else if |fields| == 1 then fields[0]
    else fields[0] + [sep] + Join(fields[1..], sep)
  }

  predicate Lacks(s: string, c: char) { forall i :: 0 <= i < |s| ==> s[i] != c }

  lemma {:induction false} SplitThenJoin(s: string, sep: char)
    ensures Join(Split(s, sep), sep) == s
    ensures forall i :: 0 <= i < |Split(s, sep)| ==> Lacks(Split(s, sep)[i], sep)
  {
    if s != "" {
      SplitThenJoin(s[1..], sep);
      var rest := Split(s[1..], sep);
      if s[0] == sep {
        assert ([""] + rest)[1..] == rest;
      } else {
        var fields := [[s[0]] + rest[0]] + rest[1..];
        assert fields[1..] == rest[1..];
        assert Join(fields, sep) == [s[0]] + Join(rest, sep);
      }
    }
  }

  lemma {:induction false} JoinThenSplit(fields: seq<string>, sep: char)
    requires fields != [] && forall i :: 0 <= i < |fields| ==> Lacks(fields[i], sep)
    ensures Split(Join(fields, sep), sep) == fields
    decreases |fields|, |fields[0]|
  {
    var s := Join(fields, sep);
    if fields[0] == "" {
      if |fields| > 1 {
        JoinThenSplit(fields[1..], sep);
        assert s[1..] == Join(fields[1..], sep);
      }
    } else {
      var shorter := [fields[0][1..]] + fields[1..];
      JoinThenSplit(shorter, sep);
      assert s[1..] == Join(shorter, sep) by {
        if |fields| > 1 { assert shorter[1..] == fields[1..]; }
      }
      assert s[0] == fields[0][0];
      assert [s[0]] + fields[0][1..] == fields[0];
      assert fields == [[s[0]] + fields[0][1..]] + fields[1..];
    }
  }

  predicate Chars(s: string, allowed: char -> bool) { forall i :: 0 <= i < |s| ==> allowed(s[i]) }

  /** `(?:[a-z0-9]{26}|[a-z0-9]{32})`, the whole string. */
  predicate ValidBootId(s: string) {
    |s| in {26, 32} && Chars(s, c => 'a' <= c <= 'z' || '0' <= c <= '9')
  }

  // ---------------------------------------------------------------------------------------
  // Wrapped protocol sessions.
  // ---------------------------------------------------------------------------------------

  const MCP_SESSION_PREFIX := "imcps1."
  const MAX_WRAPPED := 1_400

  function Ascii(s: string): (raw: seq<Byte>)
    requires Chars(s, c => c < 128 as char)
    ensures |raw| == |s| && forall i :: 0 <= i < |s| ==> raw[i] == s[i] as int
  {
    seq(|s|, i requires 0 <= i < |s| => s[i] as int)
  }

  function Text(raw: seq<Byte>): (s: string)
    ensures |s| == |raw| && forall i :: 0 <= i < |s| ==> s[i] as int == raw[i]
  {
    seq(|raw|, i requires 0 <= i < |raw| => raw[i] as char)
  }

  predicate Printable(raw: seq<Byte>) { forall i :: 0 <= i < |raw| ==> 33 <= raw[i] <= 126 }

  /** `wrapped_session_id`; `raw.encode("ascii")` raises on anything else. */
  function WrappedSessionId(boot: Option<string>, raw: string): Option<string> {
    match boot
    case None => Some(raw)
    case Some(id) =>
      if Chars(raw, c => c < 128 as char)
      then Some(MCP_SESSION_PREFIX + id + "." + Base64Url.Encode(Ascii(raw)))
      else None
  }

  /** `session_route`: the owner pinned by the header, and the session id to forward. */
  function SessionRoute(header: Option<string>, requestId: RequestId): Result<(Option<Route>, Option<string>),
      RouteError> {
    if header.None? || !(MCP_SESSION_PREFIX <= header.value) then Ok((None, header))
    else
      var fields := Split(header.value[|MCP_SESSION_PREFIX|..], '.');
      var invalid := Err(RouteError("mcp_session_invalid", requestId, false));
      if |fields| != 2 || !ValidBootId(fields[0]) || |fields[1]| > MAX_WRAPPED then invalid
      else
        var raw := Base64Url.Decode(fields[1]);
        if raw.None? || raw.value == [] || !Printable(raw.value)
            || Base64Url.Encode(raw.value) != fields[1] then invalid
        else Ok((Some(Route(fields[0], requestId)), Some(Text(raw.value))))
  }

  predicate WrappableSession(raw: string) {
    1 <= |raw| <= 1_050 && Chars(raw, c => 33 as char <= c <= 126 as char)
  }

  lemma EncodedHasNoDot(raw: seq<Byte>)
    ensures Lacks(Base64Url.Encode(raw), '.')
  {
    Base64Url.PaddedIsRepadded(raw);
  }

  lemma WrappedFields(id: string, text: string)
    requires ValidBootId(id) && Lacks(text, '.')
    ensures Split(id + "." + text, '.') == [id, text]
  {
    assert Lacks(id, '.');
    JoinThenSplit([id, text], '.');
    assert Join([id, text], '.') == id + "." + text by { assert [id, text][1..] == [text]; }
  }

  /**
   * A wrapped session id unwraps to what was wrapped exactly when it is nonempty, printable and at
   * most 1050 bytes; every other ASCII id is refused.
   */
  lemma WrapThenUnwrapIff(id: string, raw: string, requestId: RequestId)
    requires ValidBootId(id) && Chars(raw, c => c < 128 as char)
    ensures var header := WrappedSessionId(Some(id), raw);
            && (SessionRoute(header, requestId) == Ok((Some(Route(id, requestId)), Some(raw))) <==>
                WrappableSession(raw))
            && (!WrappableSession(raw) ==> SessionRoute(header, requestId).Err?)
  {
    hide Base64Url.Encode, Base64Url.Decode;
    var bytes := Ascii(raw);
    var text := Base64Url.Encode(bytes);
    var header := MCP_SESSION_PREFIX + id + "." + text;
    assert header[|MCP_SESSION_PREFIX|..] == id + "." + text;
    EncodedHasNoDot(bytes);
    WrappedFields(id, text);
    Base64Url.PaddedIsRepadded(bytes);
    Base64Url.DecodeEncode(bytes);
    assert Text(bytes) == raw;
    assert Printable(bytes) <==> Chars(raw, c => 33 as char <= c <= 126 as char);
    assert |text| > MAX_WRAPPED <==> |raw| > 1_050;
  }

  /** A prefixed header that unwraps is the wrapping of what it unwrapped to: there is one spelling. */
  lemma UnwrapThenWrap(header: string, requestId: RequestId)
    requires MCP_SESSION_PREFIX <= header && SessionRoute(Some(header), requestId).Ok?
    ensures var (route, raw) := SessionRoute(Some(header), requestId).value;
            && route.Some? && raw.Some? && ValidBootId(route.value.bootId) && WrappableSession(raw.value)
            && WrappedSessionId(Some(route.value.bootId), raw.value) == Some(header)
  {
    hide Base64Url.Encode, Base64Url.Decode;
    var body := header[|MCP_SESSION_PREFIX|..];
    var fields := Split(body, '.');
    SplitThenJoin(body, '.');
    assert fields == [fields[0], fields[1]];
    assert fields[1..] == [fields[1]];
    assert body == fields[0] + "." + fields[1];
    assert header == MCP_SESSION_PREFIX + body;
    var raw := Base64Url.Decode(fields[1]).value;
    assert Ascii(Text(raw)) == raw;
    Base64Url.PaddedIsRepadded(raw);
    assert header == MCP_SESSION_PREFIX + fields[0] + "." + fields[1];
  }

  /** Two headers that unwrap to the same owner and session are the same header. */
  lemma UnwrapIsInjective(h1: string, h2: string, requestId: RequestId)
    requires MCP_SESSION_PREFIX <= h1 && MCP_SESSION_PREFIX <= h2
    requires SessionRoute(Some(h1), requestId).Ok?
        && SessionRoute(Some(h1), requestId) == SessionRoute(Some(h2), requestId)
    ensures h1 == h2
  {
    UnwrapThenWrap(h1, requestId);
    UnwrapThenWrap(h2, requestId);
  }
}
