/**
 * Where `_forward` of `scripts/intendant-mcp-relay.py` sends a request, in its client's terms: the terminal
 * its call names and the session its header carries.
 */
module RelayLaws {
  import opened Common
  import Base64Url
  import opened RelayRouting
  import opened TerminalRouting
  import opened TerminalLaws
  import opened RelayForward

  // ---------------------------------------------------------------------------------------
  // The session header.
  // ---------------------------------------------------------------------------------------

  /** The header wraps a session of daemon `b`, one of 1 to 1050 printable characters. */
  ghost predicate SessionOf(header: Option<string>, b: string) {
    ValidBootId(b) && exists raw :: Wraps(header, b, raw)
  }

  predicate Wraps(header: Option<string>, b: string, raw: string) {
    && 1 <= |raw| <= 1050 && (forall i :: 0 <= i < |raw| ==> '!' <= raw[i] <= '~')
    && header == Some("imcps1." + b + "." + Base64Url.Encode(Codes(raw)))
  }

  function Codes(raw: string): seq<Byte>
    requires forall i :: 0 <= i < |raw| ==> '!' <= raw[i] <= '~'
  {
    seq(|raw|, i requires 0 <= i < |raw| => raw[i] as int)
  }

  /** The header is the client's own, which belongs to whatever daemon answers. */
  predicate OwnSession(header: Option<string>) { header.None? || !("imcps1." <= header.value) }

  /** A session goes to daemon `b`, unwrapped, exactly when the header wraps it for that daemon. */
  lemma SessionIff(header: Option<string>, id: RequestId, b: string, raw: string)
    ensures SessionRoute(header, id) == Ok((Some(Route(b, id)), Some(raw))) <==> ValidBootId(b) && Wraps(header, b, raw)
  {
    hide Base64Url.Encode, ValidBootId, SessionRoute;
    if ValidBootId(b) && Wraps(header, b, raw) {
      assert Codes(raw) == Ascii(raw);
      WrapThenUnwrapIff(b, raw, id);
    }
    if SessionRoute(header, id) == Ok((Some(Route(b, id)), Some(raw))) {
      SessionOutcomes(header, id);
      UnwrapThenWrap(header.value, id);
      assert Codes(raw) == Ascii(raw);
    }
  }

  lemma SessionOutcomes(header: Option<string>, id: RequestId)
    ensures OwnSession(header) <==> SessionRoute(header, id) == Ok((None, header))
    ensures match SessionRoute(header, id)
      case Ok((route, raw)) => route.Some? ==> route.value.requestId == id && raw.Some?
      case Err(error) => error == RouteError("mcp_session_invalid", id, false)
    ensures SessionRoute(header, id).Ok? && SessionRoute(header, id).value.0.None? ==> OwnSession(header)
  {
    hide Base64Url.Encode, Base64Url.Decode, ValidBootId, Split, Text;
  }

  lemma SessionOfIff(header: Option<string>, id: RequestId, b: string)
    ensures SessionOf(header, b) <==>
      SessionRoute(header, id).Ok? && SessionRoute(header, id).value.0 == Some(Route(b, id))
  {
    hide SessionRoute, Wraps, ValidBootId;
    SessionOutcomes(header, id);
    if SessionRoute(header, id).Ok? && SessionRoute(header, id).value.0 == Some(Route(b, id)) {
      SessionIff(header, id, b, SessionRoute(header, id).value.1.value);
    }
    if SessionOf(header, b) {
      var raw :| Wraps(header, b, raw);
      SessionIff(header, id, b, raw);
    }
  }

  // ---------------------------------------------------------------------------------------
  // The two together.
  // ---------------------------------------------------------------------------------------

  /** A posted call names a terminal of daemon `b`. */
  ghost predicate CallFor(req: Incoming, utf8: seq<Byte> -> bool, b: string)
    requires req.body.Some?
  {
    req.post && exists slot :: Names(req.body.value, slot) && TerminalOf(slot, b, utf8)
  }

  /** A posted call names something that begins like a handle and is no daemon's terminal. */
  ghost predicate CallBroken(req: Incoming, utf8: seq<Byte> -> bool)
    requires req.body.Some?
  {
    && req.post
    && exists slot :: Names(req.body.value, slot) && "iterm1." <= slot && !exists b :: TerminalOf(slot, b, utf8)
  }

  /** The call, if it is one, names no handle. */
  ghost predicate CallForAny(req: Incoming)
    requires req.body.Some?
  {
    req.post ==> forall slot :: Names(req.body.value, slot) ==> !("iterm1." <= slot)
  }

  lemma CallIff(req: Incoming, utf8: seq<Byte> -> bool, b: string)
    requires req.body.Some?
    ensures var id, r := req.body.value.id, if req.post then TerminalRoute(req.body.value, utf8) else Ok(None);
      && (CallFor(req, utf8, b) <==> r == Ok(Some(Route(b, id))))
      && (CallBroken(req, utf8) <==> r.Err?)
      && (r.Err? ==> r.error == RouteError("terminal_invalid_handle", id, false))
      && (CallForAny(req) <==> r == Ok(None))
      && (r.Ok? && r.value.Some? ==> r.value.value.requestId == id)
  {
    hide Names, TerminalOf, TerminalRoute;
    RoutedIff(req.body.value, utf8, b);
    RefusedIff(req.body.value, utf8);
    UnroutedIff(req.body.value, utf8);
    RoutedForItsRequest(req.body.value, utf8);
  }

  lemma RoutedForItsRequest(body: Body, utf8: seq<Byte> -> bool)
    ensures var r := TerminalRoute(body, utf8); r.Ok? && r.value.Some? ==> r.value.value.requestId == body.id
  {
    hide TerminalId, HandleRoute;
    if TerminalId(body).Some? && "iterm1." <= TerminalId(body).value {
      HandleOutcomes(TerminalId(body).value, body.id, utf8);
    }
  }

  /**
   * A request goes to daemon `b` exactly when its call or its wrapped session names `b` and neither names another;
   * to the active daemon exactly when neither names one.
   */
  lemma DestinedIff(req: Incoming, utf8: seq<Byte> -> bool, b: string)
    requires req.body.Some?
    ensures var to, r := Destine(req, utf8), Route(b, req.body.value.id);
      && (to == Ok(Destination(Some(r), false, true)) <==> CallFor(req, utf8, b) && SessionOf(req.session, b))
      && (to == Ok(Destination(Some(r), false, false)) <==> CallFor(req, utf8, b) && OwnSession(req.session))
      && (to == Ok(Destination(Some(r), true, true)) <==> CallForAny(req) && SessionOf(req.session, b))
      && (to == Ok(Destination(None, false, false)) <==> CallForAny(req) && OwnSession(req.session))
  {
    hide CallFor, CallBroken, CallForAny, SessionOf, OwnSession, TerminalRoute, SessionRoute;
    CallIff(req, utf8, b);
    SessionOutcomes(req.session, req.body.value.id);
    SessionOfIff(req.session, req.body.value.id, b);
  }

  /** Each refusal's cause. None says that anything may have been sent; only a bad session is a protocol error. */
  lemma RefusedRouteIff(req: Incoming, utf8: seq<Byte> -> bool)
    requires req.body.Some?
    ensures var to := Destine(req, utf8);
      && (to.Err? && ErrorReply(to.error, false) == ToolError("terminal_session_mismatch", NotSent) <==>
            exists b, c :: b != c && CallFor(req, utf8, b) && SessionOf(req.session, c))
      && (to.Err? && ErrorReply(to.error, false) == ToolError("terminal_invalid_handle", NotSent) <==>
            CallBroken(req, utf8))
      && (to.Err? && ErrorReply(to.error, false) == ProtocolError("mcp_session_invalid", NotSent) <==>
            !CallBroken(req, utf8) && !OwnSession(req.session) && !exists b :: SessionOf(req.session, b))
      && (to.Err? ==>
            ErrorReply(to.error, false) in
              {ToolError("terminal_session_mismatch", NotSent), ToolError("terminal_invalid_handle", NotSent),
               ProtocolError("mcp_session_invalid", NotSent)})
  {
    hide CallFor, CallBroken, CallForAny, SessionOf, OwnSession, TerminalRoute, SessionRoute;
    var id := req.body.value.id;
    forall b
      ensures CallFor(req, utf8, b) <==>
        (if req.post then TerminalRoute(req.body.value, utf8) else Ok(None)) == Ok(Some(Route(b, id)))
    {
      CallIff(req, utf8, b);
    }
    CallIff(req, utf8, "");
    SessionOutcomes(req.session, id);
    forall b
      ensures SessionOf(req.session, b) <==>
        SessionRoute(req.session, id).Ok? && SessionRoute(req.session, id).value.0 == Some(Route(b, id))
    {
      SessionOfIff(req.session, id, b);
    }
  }
}
