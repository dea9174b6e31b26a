/**
 * The forwarding procedure of `scripts/intendant-mcp-relay.py`. Files, sockets and clients answer
 * as they please; a ghost trace records what the relay did, and the contracts are about the trace.
 */
module RelayForward {
  import opened Common
  import opened RelayRouting
  import opened TerminalRouting

  datatype Descriptor = Descriptor(port: nat, stamp: int)

  /** A record's state: a string, another value Python can hash, or an array or object, which it cannot. */
  datatype OwnerState = Named(name: string) | Scalar | Compound

  /** A record's port: an integer, a float or boolean that Python calls equal to one, or anything else. */
  datatype OwnerPort = Whole(n: int) | EqualTo(n: int) | NoPort

  datatype OwnerRecord = OwnerRecord(bootId: Option<string>, state: OwnerState, port: OwnerPort, digest: Option<string>)

  datatype Upstream = Upstream(conn: nat, port: nat, token: string)

  /** What the relay tells its client about a request it could not relay. */
  datatype Verdict = NotSent | Unknown

  datatype Reply =
    | Relayed
    | Plain(status: nat)
    | ToolError(code: string, verdict: Verdict)
    | ProtocolError(code: string, verdict: Verdict)

  /** `None` where the read raised. */
  datatype Act =
    | Described(seen: Option<Descriptor>)
    | Tokened(port: nat, content: Option<string>)
    | OwnerRead(record: Option<OwnerRecord>)
    | Listed(stem: string, entry: Option<OwnerRecord>)
    | Connected(conn: nat, port: nat, ok: bool)
    | Closed(conn: nat)
    | Requested(conn: nat, port: nat, token: string)
    | Responded(reply: Reply)

  function Connects(trace: seq<Act>): nat {
    if trace == [] then 0 else Connects(trace[..|trace| - 1]) + if trace[|trace| - 1].Connected? then 1 else 0
  }

  function Requests(trace: seq<Act>): nat {
    if trace == [] then 0 else Requests(trace[..|trace| - 1]) + if trace[|trace| - 1].Requested? then 1 else 0
  }

  function Responses(trace: seq<Act>): nat {
    if trace == [] then 0 else Responses(trace[..|trace| - 1]) + if trace[|trace| - 1].Responded? then 1 else 0
  }

  lemma Appended(trace: seq<Act>, a: Act)
    ensures Connects(trace + [a]) == Connects(trace) + if a.Connected? then 1 else 0
    ensures Requests(trace + [a]) == Requests(trace) + if a.Requested? then 1 else 0
    ensures Responses(trace + [a]) == Responses(trace) + if a.Responded? then 1 else 0
  {
    assert (trace + [a])[..|trace|] == trace;
  }

  lemma {:induction false} CountsConcat(a: seq<Act>, b: seq<Act>)
    ensures Connects(a + b) == Connects(a) + Connects(b)
    ensures Requests(a + b) == Requests(a) + Requests(b)
    ensures Responses(a + b) == Responses(a) + Responses(b)
    decreases |b|
  {
    if b == [] {
      assert a + b == a;
    } else {
      var front, last := b[..|b| - 1], b[|b| - 1];
      CountsConcat(a, front);
      assert a + b == (a + front) + [last];
      Appended(a + front, last);
      Appended(front, last);
      assert b == front + [last];
    }
  }

  /** The world around one request: `trace` starts empty, `open` holds the connections not closed. */
  class World {
    ghost var trace: seq<Act>
    ghost var open: set<nat>
    var nextConn: nat

    constructor ()
      ensures trace == [] && open == {} && fresh(this)
    {
      trace, open, nextConn := [], {}, 0;
    }

    ghost predicate Valid()
      reads this
    {
      forall c :: c in open ==> c < nextConn
    }

    method Do(ghost a: Act)
      modifies this`trace
      ensures trace == old(trace) + [a]
    {
      trace := trace + [a];
    }

    method ReadDescriptor() returns (seen: Option<Descriptor>)
      modifies this`trace
      ensures trace == old(trace) + [Described(seen)]
    {
      seen := *;
      Do(Described(seen));
    }

    /** The port's token file, stripped; a missing or empty one raises. */
    method ReadToken(port: nat) returns (token: Option<string>)
      modifies this`trace
      ensures trace == old(trace) + [Tokened(port, token)]
    {
      token := *;
      Do(Tokened(port, token));
    }

    method ReadOwner() returns (record: Option<OwnerRecord>)
      modifies this`trace
      ensures trace == old(trace) + [OwnerRead(record)]
    {
      record := *;
      Do(OwnerRead(record));
    }

    /** The record of one file of the owners' directory. */
    method ReadListed(stem: string) returns (entry: Option<OwnerRecord>)
      modifies this`trace
      ensures trace == old(trace) + [Listed(stem, entry)]
    {
      entry := *;
      Do(Listed(stem, entry));
    }

    method Connect(port: nat) returns (conn: nat, ok: bool)
      requires Valid()
      modifies this
      ensures Valid() && conn !in old(open) && trace == old(trace) + [Connected(conn, port, ok)]
      ensures open == old(open) + if ok then {conn} else {}
    {
      conn := nextConn;
      nextConn := nextConn + 1;
      ok := *;
      if ok { open := open + {conn}; }
      Do(Connected(conn, port, ok));
    }

    method Close(conn: nat)
      requires Valid()
      modifies this`trace, this`open
      ensures Valid() && open == old(open) - {conn} && trace == old(trace) + [Closed(conn)]
    {
      open := open - {conn};
      Do(Closed(conn));
    }
  }

  // ---------------------------------------------------------------------------------------
  // Connecting.
  // ---------------------------------------------------------------------------------------

  predicate OnlyReads(acts: seq<Act>) {
    forall i :: 0 <= i < |acts| ==> !acts[i].Requested? && !acts[i].Responded?
  }

  /** The connection was opened for a descriptor that was still current afterwards. */
  predicate PinnedConnection(acts: seq<Act>, u: Upstream) {
    && |acts| >= 4 && acts[|acts| - 1].Described? && acts[|acts| - 1].seen.Some?
    && var d := acts[|acts| - 1].seen;
    && u.port == d.value.port
    && acts[|acts| - 4..] == [Described(d), Tokened(u.port, Some(u.token)), Connected(u.conn, u.port, true),
        Described(d)]
  }

  /** Two reads of the daemon descriptor that differ. */
  predicate SawHandover(acts: seq<Act>) {
    exists i, j :: 0 <= i < j < |acts| && acts[i].Described? && acts[j].Described?
                   && acts[i].seen.Some? && acts[j].seen.Some? && acts[i].seen != acts[j].seen
  }

  /** The last two acts: a connection that succeeded, and a descriptor read that raised. */
  predicate RereadRaised(acts: seq<Act>) {
    |acts| >= 2 && acts[|acts| - 1] == Described(None) && acts[|acts| - 2].Connected? && acts[|acts| - 2].ok
  }

  /** What the second round is told of the first. */
  function FailedBefore(seen: Option<Descriptor>, connectError: bool): Option<Descriptor> {
    if connectError then seen else None
  }

  /** The two rounds both failed, or one of them raised. */
  ghost predicate ActiveRefused(acts: seq<Act>) {
    || RoundActs(acts, None, Raise)
    || exists first, second, seen, connectError, r: Round ::
         && acts == first + second && !r.Done?
         && RoundActs(first, None, Retry(seen, connectError)) && RoundActs(second, FailedBefore(seen, connectError), r)
  }

  lemma TwoRoundsRefused(first: seq<Act>, seen: Option<Descriptor>, connectError: bool, second: seq<Act>, r: Round)
    requires RoundActs(first, None, Retry(seen, connectError))
        && RoundActs(second, FailedBefore(seen, connectError), r) && !r.Done?
    ensures ActiveRefused(first + second)
  {
    hide RoundActs;
  }

  lemma RoundLength(acts: seq<Act>, failed: Option<Descriptor>, r: Round)
    requires RoundActs(acts, failed, r)
    ensures !r.Raise? ==> |acts| >= 4
    ensures r.Retry? ==> acts[|acts| - 1].Closed?
  {
  }

  /** How one round of the connection loop ends. */
  datatype Round = Raise | Retry(seen: Option<Descriptor>, connectError: bool) | Done(upstream: Upstream)

  /** What one round did, given the descriptor the last round failed to connect to. */
  predicate RoundActs(acts: seq<Act>, failed: Option<Descriptor>, r: Round) {
    && |acts| > 0 && acts[0].Described?
    && var d := acts[0].seen;
    && match r
       case Raise =>
         || acts == [Described(None)]
         || (d.Some? && acts == [Described(d), Tokened(d.value.port, None)])
         || (d.Some? && d == failed && |acts| == 2 && acts[1].Tokened?)
         || (d.Some? && d != failed && |acts| == 4 && acts[1].Tokened? && acts[2].Connected? && acts[2].ok
             && acts[3] == Described(None))
       case Retry(seen, connectError) =>
         && d == seen && d.Some? && d != failed && |acts| >= 4 && acts[1].Tokened? && acts[2].Connected?
         && if connectError then |acts| == 4 && !acts[2].ok && acts[3].Closed?
            else
              && |acts| == 5 && acts[2].ok
              && acts[3].Described? && acts[3].seen.Some? && acts[3].seen != d && acts[4].Closed?
       case Done(u) =>
         && d.Some? && d != failed && u.port == d.value.port
         && acts == [Described(d), Tokened(u.port, Some(u.token)), Connected(u.conn, u.port, true), Described(d)]
  }

  method ConnectRound(w: World, attempted: Option<Descriptor>, lastConnectError: bool) returns (r: Round,
      ghost acts: seq<Act>)
    requires w.Valid()
    modifies w
    ensures w.Valid() && w.trace == old(w.trace) + acts
    ensures RoundActs(acts, if lastConnectError then attempted else None, r)
    ensures r.Retry? ==> w.open == old(w.open)
    ensures r.Raise? ==> (w.open == old(w.open) <==> |acts| < 4)
    ensures r.Done? ==> r.upstream.conn !in old(w.open) && w.open == old(w.open) + {r.upstream.conn}
  {
    hide Connects, Requests, Responses;
    var seen := w.ReadDescriptor();
    acts := [Described(seen)];
    if seen.None? { return Raise, acts; }
    var port := seen.value.port;
    var token := w.ReadToken(port);
    acts := acts + [Tokened(port, token)];
    if token.None? { return Raise, acts; }
    if seen == attempted && lastConnectError { return Raise, acts; }
    var conn, ok := w.Connect(port);
    acts := acts + [Connected(conn, port, ok)];
    if !ok {
      w.Close(conn);
      return Retry(seen, true), acts + [Closed(conn)];
    }
    var again := w.ReadDescriptor();
    acts := acts + [Described(again)];
    if again.None? { return Raise, acts; }
    if again != seen {
      w.Close(conn);
      return Retry(seen, false), acts + [Closed(conn)];
    }
    return Done(Upstream(conn, port, token.value)), acts;
  }

  /**
   * At most two connections are tried, the second only across an observed handover; nothing is
   * requested. A result is pinned to a descriptor read again after connecting. A failure leaves
   * no connection open, except exactly when that second read raises.
   */
  method ConnectToActiveDaemon(w: World) returns (r: Option<Upstream>, ghost acts: seq<Act>)
    requires w.Valid()
    modifies w
    ensures w.Valid() && w.trace == old(w.trace) + acts && OnlyReads(acts)
    ensures Connects(acts) <= 2 && (Connects(acts) == 2 ==> SawHandover(acts))
    ensures r.Some? ==>
      && PinnedConnection(acts, r.value)
      && r.value.conn !in old(w.open) && w.open == old(w.open) + {r.value.conn}
    ensures r.None? ==> (w.open == old(w.open) <==> !RereadRaised(acts)) && ActiveRefused(acts)
  {
    hide PinnedConnection, SawHandover, Connects, Requests, Responses, RoundActs;
    var attempted: Option<Descriptor> := None;
    var lastConnectError := false;
    acts := [];
    NoConnects();
    for round := 0 to 2
      invariant w.Valid() && w.open == old(w.open) && w.trace == old(w.trace) + acts && OnlyReads(acts)
      invariant Connects(acts) == round
      invariant round == 0 ==> acts == [] && !lastConnectError
      invariant round > 0 ==> acts != [] && acts[|acts| - 1].Closed?
      invariant round == 1 ==> RoundActs(acts, None, Retry(attempted, lastConnectError))
      invariant round == 2 ==> SawHandover(acts) && ActiveRefused(acts)
    {
      var outcome: Round;
      ghost var more: seq<Act>;
      ghost var before := acts;
      outcome, more := ConnectRound(w, attempted, lastConnectError);
      acts := acts + more;
      CountsConcat(before, more);
      RoundConnects(more, if lastConnectError then attempted else None, outcome);
      RoundLength(more, if lastConnectError then attempted else None, outcome);
      if round == 1 && !outcome.Done? { TwoRoundsRefused(before, attempted, lastConnectError, more, outcome); }
      assert round == 0 ==> acts == more;
      if round == 1 && |more| >= 4 { SecondRound(before, attempted, lastConnectError, more, outcome); }
      match outcome {
        case Raise =>
          LastActs(before, more, if lastConnectError then attempted else None);
          return None, acts;
        case Done(u) =>
          PinnedSuffix(before, more, if lastConnectError then attempted else None, u);
          return Some(u), acts;
        case Retry(seen, connectError) =>
          attempted, lastConnectError := seen, connectError;
      }
    }
    return None, acts;
  }

  lemma RoundKinds(acts: seq<Act>, failed: Option<Descriptor>, r: Round)
    requires RoundActs(acts, failed, r)
    ensures OnlyReads(acts) && forall i :: 0 <= i < |acts| ==> (acts[i].Connected? <==> i == 2)
    ensures |acts| > 2 <==> !(r.Raise? && |acts| < 4)
  {
  }

  lemma RoundConnects(acts: seq<Act>, failed: Option<Descriptor>, r: Round)
    requires RoundActs(acts, failed, r)
    ensures Connects(acts) == if r.Raise? && |acts| < 4 then 0 else 1
    ensures OnlyReads(acts)
  {
    hide Connects, RoundActs;
    NoConnects();
    RoundKinds(acts, failed, r);
    for n := 0 to |acts|
      invariant Connects(acts[..n]) == if n >= 3 then 1 else 0
    {
      Appended(acts[..n], acts[n]);
      assert acts[..n + 1] == acts[..n] + [acts[n]];
    }
    assert acts[..|acts|] == acts;
  }

  lemma NoConnects()
    ensures Connects([]) == 0
  {
  }

  lemma SecondRound(first: seq<Act>, attempted: Option<Descriptor>, connectError: bool, second: seq<Act>, r: Round)
    requires RoundActs(first, None, Retry(attempted, connectError))
    requires RoundActs(second, if connectError then attempted else None, r) && |second| >= 4
    ensures SawHandover(first + second)
  {
    var acts := first + second;
    if connectError {
      assert acts[0] == Described(attempted) && acts[|first|] == second[0];
    } else {
      assert acts[0] == first[0] && acts[3] == first[3];
    }
  }

  lemma LastActs(before: seq<Act>, more: seq<Act>, failed: Option<Descriptor>)
    requires RoundActs(more, failed, Raise) && (before != [] ==> before[|before| - 1].Closed?)
    ensures RereadRaised(before + more) <==> |more| >= 4
  {
    if |more| == 1 && before != [] { assert (before + more)[|before| - 1] == before[|before| - 1]; }
  }

  lemma PinnedSuffix(before: seq<Act>, more: seq<Act>, failed: Option<Descriptor>, u: Upstream)
    requires RoundActs(more, failed, Done(u))
    ensures PinnedConnection(before + more, u)
  {
    assert (before + more)[|before + more| - 4..] == more;
  }

  predicate ValidDigest(s: string) { |s| == 64 && Chars(s, c => 'a' <= c <= 'f' || '0' <= c <= '9') }

  /** The connection goes to the recorded port of the daemon that owns `bootId`, with that boot's token. */
  predicate OwnerPinned(acts: seq<Act>, bootId: string, u: Upstream, sha256: string -> string) {
    && |acts| == 3 && acts[0].OwnerRead? && acts[0].record.Some?
    && var record := acts[0].record.value;
    && record.bootId == Some(bootId) && (record.state == Named("running") || record.state == Named("draining"))
    && record.port == Whole(u.port) && 1 <= u.port <= 65_535
    && u.token != "" && record.digest == Some(sha256(u.token)) && ValidDigest(sha256(u.token))
    && acts[1..] == [Tokened(u.port, Some(u.token)), Connected(u.conn, u.port, true)]
  }

  /** A record of a running or draining owner of `bootId`, with a port and a token digest. */
  predicate InOrder(record: Option<OwnerRecord>, bootId: string) {
    && record.Some? && record.value.bootId == Some(bootId)
    && (record.value.state == Named("running") || record.value.state == Named("draining"))
    && record.value.port.Whole? && 1 <= record.value.port.n <= 65_535
    && record.value.digest.Some? && ValidDigest(record.value.digest.value)
  }

  /** The record's own token. */
  predicate OwnToken(record: OwnerRecord, token: Option<string>, sha256: string -> string) {
    token.Some? && token.value != "" && record.digest == Some(sha256(token.value))
  }

  /** The record and the token were in order, and the third act is the connection to the recorded port. */
  predicate OwnerTried(acts: seq<Act>, bootId: string, sha256: string -> string) {
    && |acts| >= 3 && acts[0].OwnerRead? && InOrder(acts[0].record, bootId)
    && var record := acts[0].record.value;
    && acts[1].Tokened? && acts[1].port == record.port.n && OwnToken(record, acts[1].content, sha256)
    && acts[2].Connected? && acts[2].port == record.port.n
  }

  /** The only ways to fail: the record, or its token, was not in order, or the one connection failed. */
  predicate OwnerRefused(acts: seq<Act>, bootId: string, sha256: string -> string) {
    && acts != [] && acts[0].OwnerRead?
    && match |acts|
       case 1 => !InOrder(acts[0].record, bootId)
       case 2 =>
         && InOrder(acts[0].record, bootId)
         && acts[1].Tokened? && acts[1].port == acts[0].record.value.port.n
         && !OwnToken(acts[0].record.value, acts[1].content, sha256)
       case 4 => OwnerTried(acts, bootId, sha256) && !acts[2].ok && acts[3] == Closed(acts[2].conn)
       case _ => false
  }

  /** The record names this boot and its state is an array or object: looking it up raises what nothing catches. */
  predicate StateRaises(record: Option<OwnerRecord>, bootId: string) {
    record.Some? && record.value.bootId == Some(bootId) && record.value.state.Compound?
  }

  /** How reaching for an upstream ends; a refusal of the active daemon has no error of its own. */
  datatype Reached = Up(upstream: Upstream) | Refused(error: Option<RouteError>) | Escaped

  /** At most one connection, made only to the recorded port after a token of the recorded digest. */
  ghost predicate OwnerConnects(acts: seq<Act>, bootId: string, sha256: string -> string) {
    Connects(acts) <= 1 && forall i :: 0 <= i < |acts| && acts[i].Connected? ==> i == 2 && OwnerTried(acts, bootId,
        sha256)
  }

  /** `connect_to_terminal_owner`: one connection at most, and a failure is a definite `not_sent`. */
  method ConnectToTerminalOwner(w: World, route: Route, sha256: string -> string) returns (r: Reached,
      ghost acts: seq<Act>)
    requires w.Valid()
    modifies w
    ensures w.Valid() && w.trace == old(w.trace) + acts && OnlyReads(acts) && OwnerConnects(acts, route.bootId, sha256)
    ensures r.Up? ==> OwnerPinned(acts, route.bootId, r.upstream, sha256)
                      && r.upstream.conn !in old(w.open) && w.open == old(w.open) + {r.upstream.conn}
    ensures r.Refused? ==> r.error == Some(RouteError("terminal_owner_unavailable", route.requestId, false))
                           && OwnerRefused(acts, route.bootId, sha256)
    ensures acts != [] && acts[0].OwnerRead? && (r.Escaped? ==> |acts| == 1)
    ensures r.Escaped? <==> StateRaises(acts[0].record, route.bootId)
    ensures !r.Up? ==> w.open == old(w.open) && !RereadRaised(acts)
  {
    hide Connects, Requests, Responses;
    var unavailable := Refused(Some(RouteError("terminal_owner_unavailable", route.requestId, false)));
    var record := w.ReadOwner();
    acts := [OwnerRead(record)];
    FewConnects(acts);
    if record.None? || record.value.bootId != Some(route.bootId) { return unavailable, acts; }
    if record.value.state.Compound? { return Escaped, acts; }
    if record.value.state != Named("running") && record.value.state != Named("draining") { return unavailable, acts; }
    if !record.value.port.Whole? || !(1 <= record.value.port.n <= 65_535) { return unavailable, acts; }
    if record.value.digest.None? || !ValidDigest(record.value.digest.value) { return unavailable, acts; }
    var port := record.value.port.n;
    var token := w.ReadToken(port);
    acts := acts + [Tokened(port, token)];
    FewConnects(acts);
    if token.None? || token.value == ""
        || sha256(token.value) != record.value.digest.value { return unavailable, acts; }
    var conn, ok := w.Connect(port);
    acts := acts + [Connected(conn, port, ok)];
    FewConnects(acts);
    if !ok {
      w.Close(conn);
      acts := acts + [Closed(conn)];
      FewConnects(acts);
      return unavailable, acts;
    }
    return Up(Upstream(conn, port, token.value)), acts;
  }

  lemma FewConnects(acts: seq<Act>)
    requires 1 <= |acts| <= 4 && forall i :: 0 <= i < |acts| && acts[i].Connected? ==> i == 2
    ensures Connects(acts) <= 1
  {
    hide Connects;
    NoConnects();
    for n := 0 to |acts|
      invariant Connects(acts[..n]) <= if n >= 3 then 1 else 0
    {
      Appended(acts[..n], acts[n]);
      assert acts[..n + 1] == acts[..n] + [acts[n]];
    }
    assert acts[..|acts|] == acts;
  }

  // ---------------------------------------------------------------------------------------
  // The owner of a session that a response names.
  // ---------------------------------------------------------------------------------------

  /** The record says it is of this file's boot and serves this port. */
  predicate ListedFor(a: Act, port: nat)
    requires a.Listed?
  {
    a.entry.Some? && a.entry.value.bootId == Some(a.stem) && !a.entry.value.port.NoPort? && a.entry.value.port.n == port
  }

  /** Such a record with an array or object as its state: looking that up raises what nothing catches. */
  predicate ListingRaises(a: Act, port: nat)
    requires a.Listed?
  {
    ListedFor(a, port) && a.entry.value.state.Compound?
  }

  /** Such a record of a running or draining daemon with this token. */
  predicate Owns(a: Act, port: nat, token: string, sha256: string -> string)
    requires a.Listed?
  {
    && ListedFor(a, port) && a.entry.value.digest == Some(sha256(token))
    && (a.entry.value.state == Named("running") || a.entry.value.state == Named("draining"))
  }

  predicate AllListed(acts: seq<Act>) {
    forall i :: 0 <= i < |acts| ==> acts[i].Listed? && ValidBootId(acts[i].stem)
  }

  /** How many of the listed records own the port and its token. */
  function Owners(acts: seq<Act>, port: nat, token: string, sha256: string -> string): nat
    requires AllListed(acts)
  {
    if acts == [] then 0
    else
      Owners(acts[..|acts| - 1], port, token, sha256)
      + if Owns(acts[|acts| - 1], port, token, sha256) then 1 else 0
  }

  /** A session's owner is a boot whose record owns the port and token, when it is the only one. */
  ghost predicate IsSoleOwner(acts: seq<Act>, port: nat, token: string, sha256: string -> string, bootId: string)
    requires AllListed(acts)
  {
    && Owners(acts, port, token, sha256) == 1
    && exists i :: 0 <= i < |acts| && Owns(acts[i], port, token, sha256) && acts[i].stem == bootId
  }

  lemma {:induction false} ListedNext(acts: seq<Act>, a: Act, port: nat, token: string, sha256: string -> string)
    requires AllListed(acts) && a.Listed? && ValidBootId(a.stem)
    ensures AllListed(acts + [a])
    ensures Owners(acts + [a], port, token, sha256) ==
      Owners(acts, port, token, sha256) + if Owns(a, port, token, sha256) then 1 else 0
  {
    assert (acts + [a])[..|acts|] == acts;
  }

  /** How a lookup of the owner ends; `Found(None)` when there is none, or more than one. */
  datatype Lookup = Found(owner: Option<string>) | LookupEscaped

  /** `boot_for_target`: every well-named record is read until one raises what nothing catches. */
  method BootForTarget(w: World, u: Upstream, sha256: string -> string) returns (r: Lookup, ghost acts: seq<Act>)
    requires w.Valid()
    modifies w`trace
    ensures w.Valid() && w.trace == old(w.trace) + acts && AllListed(acts)
    ensures r.LookupEscaped? <==> exists i :: 0 <= i < |acts| && ListingRaises(acts[i], u.port)
    ensures r.LookupEscaped? ==> ListingRaises(acts[|acts| - 1], u.port)
    ensures r.Found? ==> forall b :: r.owner == Some(b) <==> IsSoleOwner(acts, u.port, u.token, sha256, b)
  {
    hide Connects, Requests, Responses, Owns, ListingRaises, IsSoleOwner;
    acts := [];
    var matches: seq<string> := [];
    var files: nat :| 0 <= files;
    for n := 0 to files
      invariant w.Valid() && w.trace == old(w.trace) + acts && AllListed(acts)
      invariant forall i :: 0 <= i < |acts| ==> !ListingRaises(acts[i], u.port)
      invariant |matches| == Owners(acts, u.port, u.token, sha256)
      invariant forall b :: b in matches <==>
        exists i :: 0 <= i < |acts| && Owns(acts[i], u.port, u.token, sha256) && acts[i].stem == b
    {
      var stem: string := *;
      if !ValidBootId(stem) { continue; }
      var entry := w.ReadListed(stem);
      ghost var before, a := acts, Listed(stem, entry);
      ListedNext(acts, a, u.port, u.token, sha256);
      acts := acts + [a];
      assert acts[|before|] == a && forall i :: 0 <= i < |before| ==> acts[i] == before[i];
      OwnsIf(a, u.port, u.token, sha256);
      var mine := entry.Some? && !entry.value.port.NoPort? && entry.value.port.n == u.port
                  && entry.value.bootId == Some(stem);
      if !mine { continue; }
      if entry.value.state.Compound? { return LookupEscaped, acts; }
      if entry.value.state != Named("running") && entry.value.state != Named("draining") { continue; }
      if entry.value.digest == Some(sha256(u.token)) { matches := matches + [stem]; }
    }
    SoleMatch(matches, acts, u.port, u.token, sha256);
    return Found(if |matches| == 1 then Some(matches[0]) else None), acts;
  }

  lemma SoleMatch(matches: seq<string>, acts: seq<Act>, port: nat, token: string, sha256: string -> string)
    requires AllListed(acts) && |matches| == Owners(acts, port, token, sha256)
    requires forall b :: b in matches <==>
      exists i :: 0 <= i < |acts| && Owns(acts[i], port, token, sha256) && acts[i].stem == b
    ensures forall b :: |matches| == 1 && matches[0] == b <==> IsSoleOwner(acts, port, token, sha256, b)
  {
    hide Owns;
    forall b ensures |matches| == 1 && matches[0] == b <==> IsSoleOwner(acts, port, token, sha256, b) {
      if |matches| == 1 {
        assert matches == [matches[0]];
        assert b in matches <==> b == matches[0];
      }
    }
  }

  lemma OwnsIf(a: Act, port: nat, token: string, sha256: string -> string)
    requires a.Listed?
    ensures Owns(a, port, token, sha256) <==>
      && ListedFor(a, port) && (a.entry.value.state == Named("running") || a.entry.value.state == Named("draining"))
      && a.entry.value.digest == Some(sha256(token))
    ensures ListingRaises(a, port) <==> ListedFor(a, port) && a.entry.value.state.Compound?
  {
  }

  // ---------------------------------------------------------------------------------------
  // Forwarding.
  // ---------------------------------------------------------------------------------------

  /** A client request; `body` is `None` where reading it raised. */
  datatype Incoming = Incoming(loopback: bool, mcpPath: bool, post: bool, body: Option<Body>, session: Option<string>)

  /** Where a request is to go: the owner it names, and whether only its session header names it. */
  datatype Destination = Destination(route: Option<Route>, protocolOnly: bool, pinnedSession: bool)

  /** The routing decision of `_forward`, from the terminal handle and the session header together. */
  function Destine(req: Incoming, utf8: seq<Byte> -> bool): Result<Destination, RouteError>
    requires req.body.Some?
  {
    match if req.post then TerminalRoute(req.body.value, utf8) else Ok(None)
    case Err(e) => Err(e)
    case Ok(terminal) =>
      match SessionRoute(req.session, req.body.value.id)
      case Err(e) => Err(e)
      case Ok((protocol, _)) =>
        if terminal.Some? && protocol.Some? && terminal.value.bootId != protocol.value.bootId
        then Err(RouteError("terminal_session_mismatch", terminal.value.requestId, false))
        else
          var route := if terminal.Some? then terminal else protocol;
          Ok(Destination(route, terminal.None? && protocol.Some?, protocol.Some?))
  }

  function ErrorReply(e: RouteError, protocolOnly: bool): Reply {
    var verdict := if e.deliveryUnknown then Unknown else NotSent;
    if protocolOnly || e.code == "mcp_session_invalid" then ProtocolError(e.code, verdict) else ToolError(e.code,
        verdict)
  }

  predicate Claims(r: Reply, v: Verdict) {
    (r.ToolError? || r.ProtocolError?) && r.verdict == v
  }

  /** The request gets as far as routing. */
  predicate Admissible(req: Incoming) {
    req.loopback && req.mcpPath && req.body.Some?
  }

  /** The answer to a request that does not. */
  function EarlyReply(req: Incoming): Reply {
    Plain(if !req.loopback then 403 else if !req.mcpPath then 404 else 502)
  }

  /**
   * What the relay does not survive: a record whose state cannot be looked up, either that of the owner asked
   * for, or, once a request without an owner was sent, one listed for the port it went to.
   */
  predicate Unanswered(acts: seq<Act>, to: Destination) {
    match to.route
    case Some(route) => acts != [] && acts[0].OwnerRead? && StateRaises(acts[0].record, route.bootId)
    case None =>
      exists i, j ::
        0 <= i < j < |acts| && acts[i].Requested? && acts[j].Listed? && ListingRaises(acts[j], acts[i].port)
  }

  /** Everything a client may conclude from the acts of one forwarded request. */
  ghost predicate Honest(acts: seq<Act>, req: Incoming, utf8: seq<Byte> -> bool, sha256: string -> string) {
    && Requests(acts) <= 1
    && Responses(acts) <= 1
    && (forall i :: 0 <= i < |acts| && acts[i].Responded? ==>
          && (Claims(acts[i].reply, NotSent) ==> Requests(acts) == 0)
          && (Claims(acts[i].reply, Unknown) ==> Requests(acts) == 1))
    && (forall i :: 0 <= i < |acts| && acts[i].Requested? ==>
          ProperRequest(acts[..i], acts[i], req, utf8, sha256))
  }

  /** A request goes to the owner it names, or else to the daemon current after connecting. */
  ghost predicate ProperRequest(before: seq<Act>, a: Act, req: Incoming, utf8: seq<Byte> -> bool,
      sha256: string -> string)
    requires a.Requested?
  {
    && Admissible(req) && Destine(req, utf8).Ok?
    && var to := Destine(req, utf8).value;
    && var u := Upstream(a.conn, a.port, a.token);
    && match to.route
       case None => PinnedConnection(before, u)
       case Some(route) =>
         && |before| >= 3 && OwnerPinned(before[..3], route.bootId, u, sha256)
         && (ChecksSession(req, to) ==>
               exists d: Option<Descriptor> :: d.Some? && d.value.port == u.port && Described(d) in before)
  }

  /** The client's own session header must belong to the daemon reached. */
  predicate ChecksSession(req: Incoming, to: Destination) {
    req.session.Some? && req.session.value != "" && !to.pinnedSession
  }

  /** The owner was reached, but the daemon the session header belongs to is another, or unknown. */
  predicate SessionElsewhere(acts: seq<Act>, to: Destination, req: Incoming, sha256: string -> string) {
    && to.route.Some? && ChecksSession(req, to)
    && |acts| >= 4 && OwnerTried(acts, to.route.value.bootId, sha256) && acts[2].ok && acts[3].Described?
    && (acts[3].seen.None? || acts[3].seen.value.port != acts[2].port)
  }

  /**
   * The only reasons not to send: both rounds for the active daemon failed; or the owner's record, token or
   * connection was not in order; or the client's own session header belongs to another daemon.
   */
  ghost predicate Excused(acts: seq<Act>, to: Destination, req: Incoming, sha256: string -> string) {
    match to.route
    case None => exists n :: 0 <= n <= |acts| && ActiveRefused(acts[..n])
    case Some(route) =>
      || (exists n :: 0 <= n <= |acts| && OwnerRefused(acts[..n], route.bootId, sha256))
      || SessionElsewhere(acts, to, req, sha256) || Unanswered(acts, to)
  }

  /** How many connections, and to whom. */
  ghost predicate Bounded(acts: seq<Act>, to: Destination, sha256: string -> string) {
    match to.route
    case None => Connects(acts) <= 2 && (Connects(acts) == 2 ==> SawHandover(acts))
    case Some(route) => OwnerConnects(acts, route.bootId, sha256)
  }

  /** The kind of answer a destination gets. */
  predicate RightKind(reply: Reply, to: Destination) {
    match reply
    case Relayed => true
    case Plain(status) => status == 502 && to.route.None?
    case ToolError(_, _) => to.route.Some? && !to.protocolOnly
    case ProtocolError(_, _) => to.protocolOnly
  }

  /** The acts for a request that was routed: sent if it could be, answered in kind, exactly once if at all. */
  ghost predicate Served(acts: seq<Act>, to: Destination, req: Incoming, sha256: string -> string) {
    && (forall i :: 0 <= i < |acts| && acts[i].Responded? ==> RightKind(acts[i].reply, to))
    && (Requests(acts) == 0 ==> Excused(acts, to, req, sha256))
    && Responses(acts) == (if Unanswered(acts, to) then 0 else 1)
    && Bounded(acts, to, sha256)
  }

  /** What `_forward` may do with a request. */
  ghost predicate Truthful(acts: seq<Act>, req: Incoming, utf8: seq<Byte> -> bool, sha256: string -> string) {
    && Honest(acts, req, utf8, sha256)
    && if !Admissible(req) then acts == [Responded(EarlyReply(req))]
       else
         match Destine(req, utf8)
         case Err(e) => acts == [Responded(ErrorReply(e, false))]
         case Ok(to) => Served(acts, to, req, sha256)
  }

  method Respond(w: World, reply: Reply)
    requires w.Valid()
    modifies w`trace
    ensures w.Valid() && w.trace == old(w.trace) + [Responded(reply)]
  {
    w.Do(Responded(reply));
  }

  /** How an exchange ends: a response was started, a step before it raised, or something escaped. */
  datatype Ended = Started | Failed | Uncaught

  /** The acts of an exchange, up to the relay's own answer. */
  function ExchangeActs(u: Upstream, listed: seq<Act>, ended: Ended): seq<Act> {
    [Requested(u.conn, u.port, u.token)] + listed
    + (if ended.Started? then [Responded(Relayed)] else []) + [Closed(u.conn)]
  }

  /** The owners were listed only for a request without one, and something escaped exactly if a listed record raises. */
  predicate ListedRightly(listed: seq<Act>, u: Upstream, ended: Ended, routed: bool) {
    && AllListed(listed) && (routed ==> listed == [])
    && (ended.Uncaught? <==> exists i :: 0 <= i < |listed| && ListingRaises(listed[i], u.port))
  }

  /**
   * The upstream half: one request, a lookup of the owner if the response names a session and the request no
   * owner, and the start of one relayed response unless a step before it raises; whatever happens, the
   * connection is closed. Failures after the start only close.
   */
  method Exchange(w: World, u: Upstream, routed: bool, sha256: string -> string)
    returns (ended: Ended, ghost listed: seq<Act>)
    requires w.Valid()
    modifies w
    ensures w.Valid() && w.open == old(w.open) - {u.conn}
    ensures w.trace == old(w.trace) + ExchangeActs(u, listed, ended) && ListedRightly(listed, u, ended, routed)
  {
    hide Connects, Requests, Responses, ListingRaises, IsSoleOwner;
    w.Do(Requested(u.conn, u.port, u.token));
    listed := [];
    ended := Failed;
    var answered: bool := *;
    if answered {
      var namesSession: bool := *;
      var raised: bool := false;
      if namesSession && !routed {
        var owner;
        owner, listed := BootForTarget(w, u, sha256);
        if owner.LookupEscaped? {
          ended := Uncaught;
        } else {
          raised := *;
        }
      }
      if ended.Failed? && !raised {
        w.Do(Responded(Relayed));
        ended := Started;
      }
    }
    w.Close(u.conn);
  }

  lemma {:induction false} ReadsCountNothing(acts: seq<Act>)
    requires OnlyReads(acts)
    ensures Requests(acts) == 0 && Responses(acts) == 0
  {
    if acts != [] { ReadsCountNothing(acts[..|acts| - 1]); }
  }

  /** A request that never left the relay: reads only, then one answer. */
  lemma HonestRefusal(prior: seq<Act>, reply: Reply, req: Incoming, utf8: seq<Byte> -> bool, sha256: string -> string)
    requires OnlyReads(prior) && !Claims(reply, Unknown)
    ensures Honest(prior + [Responded(reply)], req, utf8, sha256)
    ensures Requests(prior + [Responded(reply)]) == 0 && Responses(prior + [Responded(reply)]) == 1
    ensures Connects(prior + [Responded(reply)]) == Connects(prior)
  {
    ReadsCountNothing(prior);
    Appended(prior, Responded(reply));
  }

  /** The acts of an exchange after `prior`, with the relay's own answer if a step before the response raised. */
  function Exchanged(prior: seq<Act>, u: Upstream, listed: seq<Act>, ended: Ended, reply: Reply): seq<Act> {
    prior + ExchangeActs(u, listed, ended) + if ended.Failed? then [Responded(reply)] else []
  }

  /** A request that was sent: reads, the exchange, and one answer unless something escaped. */
  lemma HonestExchange(prior: seq<Act>, u: Upstream, listed: seq<Act>, ended: Ended, reply: Reply, req: Incoming,
      utf8: seq<Byte> -> bool, sha256: string -> string)
    requires OnlyReads(prior) && AllListed(listed) && !Claims(reply, NotSent)
    requires ProperRequest(prior, Requested(u.conn, u.port, u.token), req, utf8, sha256)
    ensures Honest(Exchanged(prior, u, listed, ended, reply), req, utf8, sha256)
  {
    hide ProperRequest, Requests, Responses, Connects;
    ExchangeCounts(prior, u, listed, ended, reply);
    ExchangePlaces(prior, u, listed, ended, reply);
  }

  /** Where the request and the answers of an exchange stand. */
  lemma ExchangePlaces(prior: seq<Act>, u: Upstream, listed: seq<Act>, ended: Ended, reply: Reply)
    requires OnlyReads(prior) && AllListed(listed)
    ensures var acts := Exchanged(prior, u, listed, ended, reply);
      && |acts| > |prior| && acts[..|prior|] == prior && acts[|prior|] == Requested(u.conn, u.port, u.token)
      && (forall i :: 0 <= i < |acts| && acts[i].Requested? ==> i == |prior|)
      && (forall i :: 0 <= i < |acts| && acts[i].Responded? ==>
            acts[i].reply == if ended.Started? then Relayed else reply)
      && (forall i :: |prior| <= i < |acts| ==> !acts[i].Connected?)
  {
    var acts := Exchanged(prior, u, listed, ended, reply);
    forall i | |prior| < i <= |prior| + |listed| ensures acts[i] == listed[i - |prior| - 1] {}
    forall i | 0 <= i < |prior| ensures acts[i] == prior[i] {}
  }

  lemma ExchangeCounts(prior: seq<Act>, u: Upstream, listed: seq<Act>, ended: Ended, reply: Reply)
    requires OnlyReads(prior) && AllListed(listed)
    ensures var acts := Exchanged(prior, u, listed, ended, reply);
      Requests(acts) == 1 && Responses(acts) == (if ended.Uncaught? then 0 else 1) && Connects(acts) == Connects(prior)
  {
    hide Requests, Responses, Connects;
    ReadsCountNothing(prior);
    ReadsCountNothing(listed);
    ListedConnectNothing(listed);
    var sent := prior + [Requested(u.conn, u.port, u.token)];
    Appended(prior, Requested(u.conn, u.port, u.token));
    CountsConcat(sent, listed);
    var acts := sent + listed;
    match ended
    case Started =>
      Appended(acts, Responded(Relayed));
      Appended(acts + [Responded(Relayed)], Closed(u.conn));
      assert Exchanged(prior, u, listed, ended, reply) == acts + [Responded(Relayed)] + [Closed(u.conn)];
    case Failed =>
      Appended(acts, Closed(u.conn));
      Appended(acts + [Closed(u.conn)], Responded(reply));
      assert Exchanged(prior, u, listed, ended, reply) == acts + [Closed(u.conn)] + [Responded(reply)];
    case Uncaught =>
      Appended(acts, Closed(u.conn));
      assert Exchanged(prior, u, listed, ended, reply) == acts + [Closed(u.conn)];
  }

  lemma {:induction false} ListedConnectNothing(acts: seq<Act>)
    requires AllListed(acts)
    ensures Connects(acts) == 0
  {
    if acts != [] { ListedConnectNothing(acts[..|acts| - 1]); }
  }

  /** What is done after reaching for an upstream takes nothing back. */
  lemma LaterActs(prior: seq<Act>, acts: seq<Act>, to: Destination, req: Incoming, sha256: string -> string)
    requires prior != [] && prior <= acts && Connects(acts) == Connects(prior)
    requires forall i :: |prior| <= i < |acts| ==> !acts[i].Connected?
    ensures Bounded(prior, to, sha256) ==> Bounded(acts, to, sha256)
    ensures Excused(prior, to, req, sha256) ==> Excused(acts, to, req, sha256)
    ensures to.route.Some? ==> (Unanswered(acts, to) <==> Unanswered(prior, to))
  {
    hide Connects, ActiveRefused, OwnerRefused, SawHandover;
    forall n | 0 <= n <= |prior| ensures prior[..n] == acts[..n] {}
    HandoverStays(prior, acts);
  }

  /** An exchange goes unanswered exactly when something escaped it, or the reads before it. */
  lemma ExchangeUnanswered(prior: seq<Act>, u: Upstream, listed: seq<Act>, ended: Ended, reply: Reply, to: Destination)
    requires prior != [] && OnlyReads(prior) && !Unanswered(prior, to)
    requires ListedRightly(listed, u, ended, to.route.Some?)
    ensures Unanswered(Exchanged(prior, u, listed, ended, reply), to) <==> ended.Uncaught?
  {
    hide ListingRaises, StateRaises;
    ExchangePlaces(prior, u, listed, ended, reply);
    var acts := Exchanged(prior, u, listed, ended, reply);
    forall j | |prior| < j < |acts| && acts[j].Listed?
      ensures j <= |prior| + |listed| && acts[j] == listed[j - |prior| - 1]
    {
      ExchangeListing(prior, u, listed, ended, reply, j);
    }
    if ended.Uncaught? {
      var i :| 0 <= i < |listed| && ListingRaises(listed[i], u.port);
      assert acts[|prior| + 1 + i] == listed[i];
    }
  }

  lemma ExchangeListing(prior: seq<Act>, u: Upstream, listed: seq<Act>, ended: Ended, reply: Reply, j: nat)
    requires var acts := Exchanged(prior, u, listed, ended, reply); |prior| < j < |acts| && acts[j].Listed?
    ensures j <= |prior| + |listed| && Exchanged(prior, u, listed, ended, reply)[j] == listed[j - |prior| - 1]
  {
  }

  lemma HandoverStays(prior: seq<Act>, acts: seq<Act>)
    requires prior <= acts
    ensures SawHandover(prior) ==> SawHandover(acts)
  {
    if SawHandover(prior) {
      var i, j :| 0 <= i < j < |prior| && prior[i].Described? && prior[j].Described?
                  && prior[i].seen.Some? && prior[j].seen.Some? && prior[i].seen != prior[j].seen;
      assert acts[i] == prior[i] && acts[j] == prior[j];
    }
  }

  /** The part of `_forward` that picks and connects the upstream. */
  method Reach(w: World, to: Destination, req: Incoming, sha256: string -> string) returns (r: Reached,
      ghost prior: seq<Act>)
    requires w.Valid()
    modifies w
    ensures w.Valid() && w.trace == old(w.trace) + prior && prior != [] && OnlyReads(prior)
        && Bounded(prior, to, sha256)
    ensures r.Up? ==> r.upstream.conn !in old(w.open) && w.open == old(w.open) + {r.upstream.conn}
    ensures r.Up? && to.route.None? ==> PinnedConnection(prior, r.upstream)
    ensures r.Up? && to.route.Some? ==>
              (|prior| >= 3 && OwnerPinned(prior[..3], to.route.value.bootId, r.upstream, sha256)
               && (ChecksSession(req, to) ==>
                     exists d: Option<Descriptor> ::
                       d.Some? && d.value.port == r.upstream.port && Described(d) in prior))
    ensures r.Refused? ==> (to.route.Some? <==> r.error.Some?)
    ensures r.Refused? && r.error.Some? ==>
      !r.error.value.deliveryUnknown && r.error.value.code != "mcp_session_invalid"
    ensures !r.Up? ==> Excused(prior, to, req, sha256) && (w.open == old(w.open) <==> !RereadRaised(prior))
    ensures r.Escaped? <==> Unanswered(prior, to)
    ensures r.Escaped? ==> |prior| == 1
  {
    hide PinnedConnection, OwnerPinned, Connects, Requests, Responses, ActiveRefused, OwnerRefused, StateRaises,
        SawHandover, RereadRaised;
    if to.route.None? {
      var up: Option<Upstream>;
      up, prior := ConnectToActiveDaemon(w);
      SomethingDone(prior, up);
      assert prior[..|prior|] == prior;
      return if up.Some? then Up(up.value) else Refused(None), prior;
    }
    r, prior := ReachOwner(w, to, req, sha256);
  }

  lemma SomethingDone(acts: seq<Act>, up: Option<Upstream>)
    requires if up.Some? then PinnedConnection(acts, up.value) else ActiveRefused(acts)
    ensures acts != []
  {
  }

  /** The same for a request that names its owner, with the check of the client's own session header. */
  method ReachOwner(w: World, to: Destination, req: Incoming, sha256: string -> string) returns (r: Reached,
      ghost prior: seq<Act>)
    requires w.Valid() && to.route.Some?
    modifies w
    ensures w.Valid() && w.trace == old(w.trace) + prior && prior != [] && OnlyReads(prior)
    ensures OwnerConnects(prior, to.route.value.bootId, sha256)
    ensures r.Up? ==>
      && r.upstream.conn !in old(w.open) && w.open == old(w.open) + {r.upstream.conn}
      && |prior| >= 3 && OwnerPinned(prior[..3], to.route.value.bootId, r.upstream, sha256)
      && (ChecksSession(req, to) ==>
            exists d: Option<Descriptor> :: d.Some? && d.value.port == r.upstream.port && Described(d) in prior)
    ensures r.Refused? ==>
      r.error.Some? && !r.error.value.deliveryUnknown && r.error.value.code != "mcp_session_invalid"
    ensures !r.Up? ==> w.open == old(w.open) && !RereadRaised(prior)
    ensures !r.Up? ==> Excused(prior, to, req, sha256)
    ensures r.Escaped? <==> Unanswered(prior, to)
    ensures r.Escaped? ==> |prior| == 1
  {
    hide OwnerPinned, Connects, OwnerRefused, OwnerTried, StateRaises, Excused, OwnerConnects;
    var route := to.route.value;
    r, prior := ConnectToTerminalOwner(w, route, sha256);
    if !r.Up? {
      OwnerExcuses(prior, to, req, sha256);
      return;
    }
    OwnerPinnedIsTried(prior, route.bootId, r.upstream, sha256);
    assert prior[..3] == prior;
    if ChecksSession(req, to) {
      ghost var pinned := prior;
      var current := w.ReadDescriptor();
      prior := prior + [Described(current)];
      assert prior[..3] == pinned && Described(current) in prior;
      OwnerConnectsStill(pinned, [Described(current)], route.bootId, sha256);
      if current.None? || current.value.port != r.upstream.port {
        w.Close(r.upstream.conn);
        prior := prior + [Closed(r.upstream.conn)];
        OwnerConnectsStill(pinned, [Described(current), Closed(r.upstream.conn)], route.bootId, sha256);
        assert prior == pinned + [Described(current), Closed(r.upstream.conn)];
        SessionExcuses(pinned, prior, to, req, sha256);
        r := Refused(Some(RouteError("terminal_session_reinitialize", route.requestId, false)));
      }
    }
  }

  lemma OwnerConnectsStill(acts: seq<Act>, more: seq<Act>, bootId: string, sha256: string -> string)
    requires |acts| == 3 && OwnerConnects(acts, bootId, sha256) && forall i :: 0 <= i < |more| ==> !more[i].Connected?
    requires |more| <= 2
    ensures OwnerConnects(acts + more, bootId, sha256)
  {
    hide Connects;
    Appended(acts, if |more| > 0 then more[0] else Closed(0));
    if |more| == 1 { assert acts + more == acts + [more[0]]; }
    if |more| == 0 { assert acts + more == acts; }
    if |more| == 2 {
      Appended(acts + [more[0]], more[1]);
      assert acts + more == acts + [more[0]] + [more[1]];
    }
  }

  lemma OwnerExcuses(acts: seq<Act>, to: Destination, req: Incoming, sha256: string -> string)
    requires to.route.Some? && acts != [] && acts[0].OwnerRead?
    requires OwnerRefused(acts, to.route.value.bootId, sha256) || StateRaises(acts[0].record, to.route.value.bootId)
    ensures Excused(acts, to, req, sha256)
  {
    hide OwnerRefused, StateRaises;
    assert acts[..|acts|] == acts;
  }

  lemma SessionExcuses(pinned: seq<Act>, acts: seq<Act>, to: Destination, req: Incoming, sha256: string -> string)
    requires to.route.Some? && ChecksSession(req, to) && |pinned| == 3
        && OwnerTried(pinned, to.route.value.bootId, sha256) && pinned[2].ok
    requires |acts| == 5 && acts[..3] == pinned && acts[3].Described?
    requires acts[3].seen.None? || acts[3].seen.value.port != pinned[2].port
    ensures Excused(acts, to, req, sha256)
  {
    hide OwnerRefused;
    assert pinned[0] == acts[0] && pinned[1] == acts[1] && pinned[2] == acts[2];
  }

  lemma OwnerPinnedIsTried(acts: seq<Act>, bootId: string, u: Upstream, sha256: string -> string)
    requires OwnerPinned(acts, bootId, u, sha256)
    ensures |acts| == 3 && acts[2] == Connected(u.conn, u.port, true) && OwnerTried(acts, bootId, sha256)
  {
    var rest := acts[1..];
    assert rest[0] == acts[1] && rest[1] == acts[2];
  }

  /**
   * `_forward`, from a fresh trace: truthful whatever fails, and every connection is closed except
   * exactly when a descriptor read raised right after connecting to the active daemon.
   */
  method Forward(w: World, req: Incoming, utf8: seq<Byte> -> bool, sha256: string -> string)
    requires w.Valid() && w.trace == []
    modifies w
    ensures Truthful(w.trace, req, utf8, sha256)
    ensures w.open == old(w.open) <==> !(w.trace != [] && RereadRaised(w.trace[..|w.trace| - 1]))
  {
    hide Truthful, TerminalRoute, SessionRoute, RereadRaised;
    if !Admissible(req) {
      EarlyIsTruthful(EarlyReply(req), req, utf8, sha256);
      Respond(w, EarlyReply(req));
      NoReread(w.trace);
      return;
    }
    var to := Resolve(req, utf8);
    if to.Err? {
      DestineIsBeforeSending(req, utf8);
      EarlyIsTruthful(ErrorReply(to.error, false), req, utf8, sha256);
      Respond(w, ErrorReply(to.error, false));
      NoReread(w.trace);
      return;
    }
    Serve(w, to.value, req, utf8, sha256);
  }

  lemma NoReread(acts: seq<Act>)
    requires |acts| <= 1
    ensures acts != [] ==> !RereadRaised(acts[..|acts| - 1])
  {
  }

  lemma EarlyIsTruthful(reply: Reply, req: Incoming, utf8: seq<Byte> -> bool, sha256: string -> string)
    requires if !Admissible(req) then reply == EarlyReply(req)
             else Destine(req, utf8).Err? && reply == ErrorReply(Destine(req, utf8).error, false)
    ensures Truthful([Responded(reply)], req, utf8, sha256)
  {
    hide Destine, Honest, Served, Requests, Responses, Connects;
    if Admissible(req) { DestineIsBeforeSending(req, utf8); }
    assert OnlyReads([]);
    HonestRefusal([], reply, req, utf8, sha256);
    assert [] + [Responded(reply)] == [Responded(reply)];
  }

  /** The rest of `_forward`, for a request that has a destination. */
  method Serve(w: World, to: Destination, req: Incoming, utf8: seq<Byte> -> bool, sha256: string -> string)
    requires w.Valid() && w.trace == []
    requires Admissible(req) && Destine(req, utf8) == Ok(to)
    modifies w
    ensures Truthful(w.trace, req, utf8, sha256)
    ensures w.open == old(w.open) <==> !(w.trace != [] && RereadRaised(w.trace[..|w.trace| - 1]))
  {
    hide Truthful, Destine, PinnedConnection, OwnerPinned, Excused, Bounded, Unanswered, RereadRaised, ProperRequest,
      ListedRightly;
    var up: Reached;
    ghost var prior: seq<Act>;
    up, prior := Reach(w, to, req, sha256);
    if up.Escaped? {
      EscapeIsTruthful(prior, to, req, utf8, sha256);
      ShortReread(prior);
      assert w.trace == prior;
      return;
    }
    if up.Refused? {
      var refusal := if up.error.Some? then ErrorReply(up.error.value, to.protocolOnly) else Plain(502);
      ProtocolIsRouted(req, utf8);
      RefusalIsTruthful(prior, refusal, to, req, utf8, sha256);
      Respond(w, refusal);
      assert w.trace[..|w.trace| - 1] == prior;
      return;
    }
    var u := up.upstream;
    ReachedProperly(prior, u, req, utf8, sha256);
    ProtocolIsRouted(req, utf8);
    var ended: Ended;
    ghost var listed: seq<Act>;
    ended, listed := Exchange(w, u, to.route.Some?, sha256);
    var failure := if to.route.None? then Plain(502)
                   else
                     ErrorReply(RouteError("terminal_owner_unavailable", to.route.value.requestId, true),
                                to.protocolOnly);
    ExchangeIsTruthful(prior, u, listed, ended, failure, to, req, utf8, sha256);
    if ended.Failed? { Respond(w, failure); }
    assert w.trace == Exchanged(prior, u, listed, ended, failure);
    NoRereadAfterExchange(prior, u, listed, ended, failure);
  }

  lemma ProtocolIsRouted(req: Incoming, utf8: seq<Byte> -> bool)
    requires req.body.Some? && Destine(req, utf8).Ok?
    ensures Destine(req, utf8).value.protocolOnly ==> Destine(req, utf8).value.route.Some?
  {
    hide TerminalRoute, SessionRoute;
  }

  lemma ShortReread(prior: seq<Act>)
    requires |prior| == 1
    ensures !RereadRaised(prior) && !RereadRaised(prior[..0])
  {
  }

  lemma NoRereadAfterExchange(prior: seq<Act>, u: Upstream, listed: seq<Act>, ended: Ended, reply: Reply)
    requires AllListed(listed)
    ensures var acts := Exchanged(prior, u, listed, ended, reply); acts != [] && !RereadRaised(acts[..|acts| - 1])
  {
    var acts := Exchanged(prior, u, listed, ended, reply);
    var last := acts[|acts| - 2];
    assert acts[..|acts| - 1][|acts| - 2] == last;
    match ended
    case Started => assert last == Responded(Relayed);
    case Failed => assert last == Closed(u.conn);
    case Uncaught => assert last == if listed == [] then Requested(u.conn, u.port, u.token) else listed[|listed| - 1];
  }

  lemma EscapeIsTruthful(prior: seq<Act>, to: Destination, req: Incoming, utf8: seq<Byte> -> bool,
      sha256: string -> string)
    requires Admissible(req) && Destine(req, utf8) == Ok(to)
    requires OnlyReads(prior) && Unanswered(prior, to) && Excused(prior, to, req, sha256) && Bounded(prior, to, sha256)
    ensures Truthful(prior, req, utf8, sha256)
  {
    hide Destine, Excused, Bounded, Unanswered;
    ReadsCountNothing(prior);
  }

  lemma NothingSent(acts: seq<Act>, to: Destination)
    requires to.route.None? && forall i :: 0 <= i < |acts| ==> !acts[i].Requested?
    ensures !Unanswered(acts, to)
  {
  }

  lemma RefusalIsTruthful(prior: seq<Act>, reply: Reply, to: Destination, req: Incoming, utf8: seq<Byte> -> bool,
      sha256: string -> string)
    requires Admissible(req) && Destine(req, utf8) == Ok(to)
    requires prior != [] && OnlyReads(prior) && !Unanswered(prior, to) && Excused(prior, to, req, sha256)
        && Bounded(prior, to, sha256)
    requires RightKind(reply, to) && !Claims(reply, Unknown)
    ensures Truthful(prior + [Responded(reply)], req, utf8, sha256)
  {
    hide Destine, Excused, Bounded, Unanswered, Honest, Connects, Requests, Responses;
    HonestRefusal(prior, reply, req, utf8, sha256);
    LaterActs(prior, prior + [Responded(reply)], to, req, sha256);
    if to.route.None? { NothingSent(prior + [Responded(reply)], to); }
  }

  lemma ExchangeIsTruthful(prior: seq<Act>, u: Upstream, listed: seq<Act>, ended: Ended, reply: Reply, to: Destination,
                           req: Incoming, utf8: seq<Byte> -> bool, sha256: string -> string)
    requires Admissible(req) && Destine(req, utf8) == Ok(to)
    requires prior != [] && OnlyReads(prior) && !Unanswered(prior, to) && Bounded(prior, to, sha256)
    requires ProperRequest(prior, Requested(u.conn, u.port, u.token), req, utf8, sha256)
    requires ListedRightly(listed, u, ended, to.route.Some?)
    requires RightKind(reply, to) && !Claims(reply, NotSent)
    ensures AllListed(listed) && Truthful(Exchanged(prior, u, listed, ended, reply), req, utf8, sha256)
  {
    RightlyIsListed(listed, u, ended, to.route.Some?);
    hide Destine, Excused, Bounded, Unanswered, Honest, Connects, Requests, Responses, ProperRequest, Exchanged,
      ListedRightly;
    HonestExchange(prior, u, listed, ended, reply, req, utf8, sha256);
    ExchangeCounts(prior, u, listed, ended, reply);
    ExchangePlaces(prior, u, listed, ended, reply);
    ExchangeUnanswered(prior, u, listed, ended, reply, to);
    LaterActs(prior, Exchanged(prior, u, listed, ended, reply), to, req, sha256);
  }

  /**
   * A request without an owner that is sent and never answered: its response names a session, and the record
   * of this port and of its own file's boot has an array or object as its state.
   */
  lemma ListedStateLeavesUnanswered(req: Incoming, to: Destination, stem: string, d: Descriptor, token: string,
                                    utf8: seq<Byte> -> bool, sha256: string -> string) returns (acts: seq<Act>)
    requires Admissible(req) && Destine(req, utf8) == Ok(to) && to.route.None? && ValidBootId(stem)
    ensures acts ==
      [Described(Some(d)), Tokened(d.port, Some(token)), Connected(0, d.port, true), Described(Some(d)),
       Requested(0, d.port, token),
       Listed(stem, Some(OwnerRecord(Some(stem), Compound, Whole(d.port), None))), Closed(0)]
    ensures Truthful(acts, req, utf8, sha256) && Requests(acts) == 1 && Responses(acts) == 0
  {
    hide Destine, ValidBootId, Truthful, Connects, Requests, Responses;
    var seen := [Described(Some(d)), Tokened(d.port, Some(token)), Connected(0, d.port, true), Described(Some(d))];
    var u := Upstream(0, d.port, token);
    var listed := [Listed(stem, Some(OwnerRecord(Some(stem), Compound, Whole(d.port), None)))];
    assert ListingRaises(listed[0], d.port);
    OneConnect(d, token);
    assert PinnedConnection(seen, u) by { assert seen[|seen| - 4..] == seen; }
    ReachedProperly(seen, u, req, utf8, sha256);
    ExchangeIsTruthful(seen, u, listed, Uncaught, Plain(502), to, req, utf8, sha256);
    ExchangeCounts(seen, u, listed, Uncaught, Plain(502));
    acts := Exchanged(seen, u, listed, Uncaught, Plain(502));
  }

  lemma OneConnect(d: Descriptor, token: string)
    ensures Connects([Described(Some(d)), Tokened(d.port, Some(token)), Connected(0, d.port, true),
                      Described(Some(d))]) == 1
  {
    hide Connects;
    NoConnects();
    var first := [Described(Some(d))];
    var second := first + [Tokened(d.port, Some(token))];
    var third := second + [Connected(0, d.port, true)];
    assert [] + [Described(Some(d))] == first;
    Appended([], Described(Some(d)));
    Appended(first, Tokened(d.port, Some(token)));
    Appended(second, Connected(0, d.port, true));
    Appended(third, Described(Some(d)));
    assert third + [Described(Some(d))] ==
      [Described(Some(d)), Tokened(d.port, Some(token)), Connected(0, d.port, true), Described(Some(d))];
  }

  lemma RightlyIsListed(listed: seq<Act>, u: Upstream, ended: Ended, routed: bool)
    requires ListedRightly(listed, u, ended, routed)
    ensures AllListed(listed)
  {
  }

  lemma ReachedProperly(prior: seq<Act>, u: Upstream, req: Incoming, utf8: seq<Byte> -> bool, sha256: string -> string)
    requires Admissible(req) && Destine(req, utf8).Ok?
    requires Destine(req, utf8).value.route.None? ==> PinnedConnection(prior, u)
    requires var to := Destine(req, utf8).value;
             to.route.Some? ==>
               (|prior| >= 3 && OwnerPinned(prior[..3], to.route.value.bootId, u, sha256)
                && (ChecksSession(req, to) ==>
                      exists d: Option<Descriptor> :: d.Some? && d.value.port == u.port && Described(d) in prior))
    ensures ProperRequest(prior, Requested(u.conn, u.port, u.token), req, utf8, sha256)
  {
    hide Destine, PinnedConnection, OwnerPinned;
  }

  lemma DestineIsBeforeSending(req: Incoming, utf8: seq<Byte> -> bool)
    requires req.body.Some? && Destine(req, utf8).Err?
    ensures !Destine(req, utf8).error.deliveryUnknown
  {
  }

  /** The routing statements of `_forward`. */
  method Resolve(req: Incoming, utf8: seq<Byte> -> bool) returns (r: Result<Destination, RouteError>)
    requires req.body.Some?
    ensures r == Destine(req, utf8)
  {
    var terminal: Result<Option<Route>, RouteError> := Ok(None);
    if req.post { terminal := RouteTerminal(req.body.value, utf8); }
    if terminal.Err? { return Err(terminal.error); }
    var session := SessionRoute(req.session, req.body.value.id);
    if session.Err? { return Err(session.error); }
    var route, protocol := terminal.value, session.value.0;
    if route.Some? && protocol.Some? && route.value.bootId != protocol.value.bootId {
      return Err(RouteError("terminal_session_mismatch", route.value.requestId, false));
    }
    var protocolOnly := route.None? && protocol.Some?;
    return Ok(Destination(if route.Some? then route else protocol, protocolOnly, protocol.Some?));
  }
}
