/**
 * The two WebSocket clients over a byte stream that arrives in pieces of any size:
 * `scripts/codex_context_stress_e2e.py` and `scripts/verify-macos-chromium-controls.py`.
 */
module WebSocketClients {
  import opened Common
  import opened Bits
  import opened WebSocketFrames
  import opened WebSocketMessages
  import opened CdpReplies

  /** A connected socket: all the bytes the peer will still deliver before it closes, and all that were sent to it. */
  class Socket {
    var incoming: seq<Byte>
    var sent: seq<Byte>

    constructor (incoming: seq<Byte>)
      ensures this.incoming == incoming && sent == []
    {
      this.incoming, sent := incoming, [];
    }

    /** Some bytes, never more than asked for; none only once the peer has closed. */
    method Recv(max: nat) returns (chunk: seq<Byte>)
      requires max > 0
      modifies this`incoming
      ensures |chunk| <= max && old(incoming) == chunk + incoming
      ensures chunk == [] <==> old(incoming) == []
    {
      ghost var least := if incoming == [] then 0 else 1;
      assert least <= max && least <= |incoming| && (least == 0 <==> incoming == []);
      var n: nat :| n <= max && n <= |incoming| && (n == 0 <==> incoming == []);
      chunk, incoming := incoming[..n], incoming[n..];
    }

    method SendAll(data: seq<Byte>)
      modifies this`sent
      ensures sent == old(sent) + data
    {
      sent := sent + data;
    }
  }

  method Urandom4() returns (key: Key)
  {
    key := *;
  }

  /** `WebSocketClient`, once its handshake is over. */
  class StressClient {
    const sock: Socket

    constructor (sock: Socket)
      ensures this.sock == sock
    {
      this.sock := sock;
    }

    /** The next `size` bytes, however they arrive; `None` (the call raises) when the stream ends first. */
    method RecvExact(size: nat) returns (r: Option<seq<Byte>>)
      modifies sock`incoming
      ensures |old(sock.incoming)| >= size ==>
        r == Some(old(sock.incoming)[..size]) && sock.incoming == old(sock.incoming)[size..]
      ensures |old(sock.incoming)| < size ==> r.None? && sock.incoming == []
    {
      var chunks: seq<Byte> := [];
      while |chunks| < size
        invariant |chunks| <= size && chunks + sock.incoming == old(sock.incoming)
        decreases size - |chunks|
      {
        var chunk := sock.Recv(size - |chunks|);
        if chunk == [] { return None; }
        chunks := chunks + chunk;
      }
      return Some(chunks);
    }

    /** The length a length code stands for, with the extended bytes it calls for. */
    method RecvLength(code: nat) returns (r: Option<nat>)
      modifies sock`incoming
      ensures var width := ExtendedWidth(code);
        if |old(sock.incoming)| < width then r.None? && sock.incoming == []
        else (r == Some(if width == 0 then code else FromBigEndian(old(sock.incoming)[..width]))
              && sock.incoming == old(sock.incoming)[width..])
    {
      hide FromBigEndian;
      if code == 126 {
        var more := RecvExact(2);
        if more.None? { return None; }
        return Some(FromBigEndian(more.value));
      } else if code == 127 {
        var more := RecvExact(8);
        if more.None? { return None; }
        return Some(FromBigEndian(more.value));
      }
      return Some(code);
    }

    /** The payload, unmasked if the frame says so. */
    method RecvPayload(masked: bool, length: nat) returns (r: Option<seq<Byte>>)
      modifies sock`incoming
      ensures var at := if masked then 4 else 0;
        if |old(sock.incoming)| < at + length then r.None? && sock.incoming == []
        else
          && r == Some(UnmaskedBy(masked, old(sock.incoming)[..at], old(sock.incoming)[at..at + length]))
          && sock.incoming == old(sock.incoming)[at + length..]
    {
      hide Masked;
      ghost var s := sock.incoming;
      var key: Key := [0, 0, 0, 0];
      if masked {
        var more := RecvExact(4);
        if more.None? { return None; }
        key := more.value;
      }
      ghost var at := if masked then 4 else 0;
      var payload: seq<Byte> := [];
      if length > 0 {
        var more := RecvExact(length);
        if more.None? { return None; }
        payload := more.value;
        Cut(s, at, at + length);
      }
      assert payload == s[at..at + length] && sock.incoming == s[at + length..];
      if masked { payload := Masked(key, payload); }
      return Some(payload);
    }

    /** Reads the first frame of the stream and not a byte more. */
    method RecvFrame() returns (r: Option<Frame>)
      modifies sock`incoming
      ensures match ParseFrame(old(sock.incoming))
        case None => r.None? && sock.incoming == []
        case Some((f, rest)) => r == Some(f) && sock.incoming == rest
    {
      hide And, FromBigEndian, ParseFrame, UnmaskedBy;
      ghost var s := sock.incoming;
      var two := RecvExact(2);
      ParsedShort(s);
      if two.None? { return None; }
      var b1, b2 := two.value[0], two.value[1];
      HeaderMasks(b1);
      HeaderMasks(b2);
      var fin, opcode := And(b1, 0x80) != 0, And(b1, 0x0F);
      var masked, code := And(b2, 0x80) != 0, And(b2, 0x7F);
      ghost var t := sock.incoming;
      var declared := RecvLength(code);
      if declared.None? {
        LengthMissing(s, t, code);
        return None;
      }
      ghost var u := sock.incoming;
      FrameInParts(s, t, u, masked, code, declared.value);
      var payload := RecvPayload(masked, declared.value);
      if payload.None? { return None; }
      return Some(Frame(fin, opcode, payload.value));
    }

    /** Sends one final masked frame; a payload too long for the eight length bytes raises and sends nothing. */
    method SendFrame(payload: seq<Byte>, opcode: Opcode) returns (ok: bool, ghost key: Key)
      modifies sock`sent
      ensures ok <==> |payload| < TWO_64
      ensures sock.sent == old(sock.sent) + if ok then ClientFrame(opcode, key, payload) else []
    {
      hide And, Or, BigEndian, Masked;
      HeaderMasks(opcode);
      OrHigh(And(opcode, 0x0F), 0x80);
      OrHigh(LengthCode(|payload|), 0x80);
      var first := Or(0x80, And(opcode, 0x0F));
      var maskKey := Urandom4();
      key := maskKey;
      var length := |payload|;
      var header: seq<Byte>;
      if length < 126 {
        header := [first, Or(0x80, length)];
      } else if length <= 0xFFFF {
        header := [first, Or(0x80, 126)] + BigEndian(length, 2);
      } else if length < TWO_64 {
        header := [first, Or(0x80, 127)] + BigEndian(length, 8);
      } else {
        assert sock.sent == sock.sent + [];
        return false, key;
      }
      assert header == [first, Or(0x80, LengthCode(length))] + LengthBytes(length);
      sock.SendAll(header + maskKey + Masked(maskKey, payload));
      return true, key;
    }

    /** The next message, with every ping before its end answered. */
    method RecvMessage() returns (outcome: Outcome, ghost keys: seq<Key>)
      modifies sock`incoming, sock`sent
      ensures var r := Receive(old(sock.incoming), None, []);
        && outcome == r.outcome && sock.incoming == r.rest
        && |keys| == |r.pongs| && sock.sent == old(sock.sent) + PongBytes(r.pongs, keys)
    {
      hide ParseFrame, ClientFrame, Concatenated, Receive, PongBytes;
      NoPongs();
      var chunks: seq<seq<Byte>>, firstOpcode: Option<Opcode> := [], None;
      ghost var all := Receive(sock.incoming, None, []);
      ghost var pongs: seq<seq<Byte>> := [];
      keys := [];
      while true
        invariant |keys| == |pongs| && sock.sent == old(sock.sent) + PongBytes(pongs, keys)
        invariant var r := Receive(sock.incoming, firstOpcode, chunks);
          all.outcome == r.outcome && all.rest == r.rest && all.pongs == pongs + r.pongs
        decreases |sock.incoming|
      {
        ghost var before, first0, chunks0 := sock.incoming, firstOpcode, chunks;
        assert pongs + [] == pongs;
        var frame := RecvFrame();
        if frame.None? {
          ReceiveNothing(before, first0, chunks0);
          return Broken, keys;
        }
        ReceiveFrame(before, frame.value, sock.incoming, first0, chunks0);
        var Frame(fin, opcode, payload) := frame.value;
        if opcode == 8 { return NoText, keys; }
        if opcode == 9 {
          ghost var later := Receive(sock.incoming, firstOpcode, chunks).pongs;
          var ok, key := SendFrame(payload, 10);
          PongAppended(pongs, keys, payload, key);
          assert pongs + ([payload] + later) == pongs + [payload] + later;
          pongs, keys := pongs + [payload], keys + [key];
          continue;
        }
        if opcode == 10 { continue; }
        if opcode == 1 || opcode == 2 {
          firstOpcode := Some(opcode);
          chunks := [payload];
        } else if opcode == 0 {
          chunks := chunks + [payload];
        } else {
          continue;
        }
        assert firstOpcode == FirstAfter(first0, frame.value) && chunks == ChunksAfter(chunks0, frame.value);
        if fin { break; }
      }
      var data := Concatenated(chunks);
      if firstOpcode == Some(1) { return Text(data), keys; }
      return NoText, keys;
    }
  }

  lemma NoPongs()
    ensures PongBytes([], []) == []
  {
  }

  /** What is left of a stream once some of its first bytes were taken. */
  predicate IsLeft(left: seq<Byte>, s: seq<Byte>) {
    |left| <= |s| && left == s[|s| - |left|..]
  }

  lemma LeftTwice(s: seq<Byte>, t: seq<Byte>, u: seq<Byte>)
    requires IsLeft(t, s) && IsLeft(u, t)
    ensures IsLeft(u, s)
  {
  }

  lemma LeftOf(s: seq<Byte>, n: nat)
    ensures n <= |s| ==> IsLeft(s[n..], s)
    ensures IsLeft(s, s)
  {
  }

  /** The first bytes of what is left, and what is left then. */
  lemma Cut(s: seq<Byte>, from: nat, to: nat)
    requires from <= to <= |s|
    ensures s[from..][..to - from] == s[from..to] && s[from..][to - from..] == s[to..]
  {
  }

  function UnmaskedBy(masked: bool, key: seq<Byte>, body: seq<Byte>): seq<Byte>
    requires masked ==> |key| == 4
  {
    if masked then Masked(key, body) else body
  }

  lemma LengthMissing(s: seq<Byte>, t: seq<Byte>, code: nat)
    requires |s| >= 2 && t == s[2..] && code == And(s[1], 0x7F) && |t| < ExtendedWidth(code)
    ensures ParseFrame(s).None?
  {
    hide And, FromBigEndian, Masked, ParseFrame;
    HeaderMasks(s[1]);
    ParsedByHeader(s);
  }

  /** The frame of a stream, told of what is left after its first two bytes and after its length. */
  lemma FrameInParts(s: seq<Byte>, t: seq<Byte>, u: seq<Byte>, masked: bool, code: nat, n: nat)
    requires |s| >= 2 && t == s[2..] && code == And(s[1], 0x7F) && masked == (And(s[1], 0x80) != 0)
    requires |t| >= ExtendedWidth(code) && u == t[ExtendedWidth(code)..]
    requires n == if ExtendedWidth(code) == 0 then code else FromBigEndian(t[..ExtendedWidth(code)])
    ensures And(s[0], 0x0F) < 16
    ensures var at := if masked then 4 else 0;
      if |u| < at + n then ParseFrame(s).None?
      else
        var payload := UnmaskedBy(masked, u[..at], u[at..at + n]);
        ParseFrame(s) == Some((Frame(And(s[0], 0x80) != 0, And(s[0], 0x0F), payload), u[at + n..]))
  {
    hide And, FromBigEndian, Masked, ParseFrame;
    HeaderMasks(s[0]);
    HeaderMasks(s[1]);
    var start := 2 + ExtendedWidth(code);
    Cut(s, 2, start);
    FrameAfterLength(s, start, u, masked, n);
  }

  lemma FrameAfterLength(s: seq<Byte>, start: nat, u: seq<Byte>, masked: bool, n: nat)
    requires |s| >= 2 && masked == (And(s[1], 0x80) != 0)
    requires start == 2 + ExtendedWidth(And(s[1], 0x7F)) && |s| >= start && u == s[start..]
    requires n == if start == 2 then And(s[1], 0x7F) else FromBigEndian(s[2..start])
    ensures And(s[0], 0x0F) < 16
    ensures var at := if masked then 4 else 0;
      if |u| < at + n then ParseFrame(s).None?
      else
        var payload := UnmaskedBy(masked, u[..at], u[at..at + n]);
        ParseFrame(s) == Some((Frame(And(s[0], 0x80) != 0, And(s[0], 0x0F), payload), u[at + n..]))
  {
    hide And, FromBigEndian, Masked, ParseFrame;
    HeaderMasks(s[0]);
    HeaderMasks(s[1]);
    ParsedByHeader(s);
    hide ExtendedWidth;
    var at := if masked then 4 else 0;
    if |u| >= at + n { CutBody(s, start, at, n); }
  }

  lemma CdpRefused(s: seq<Byte>)
    ensures |s| < 2 || And(s[0], 0x80) == 0 || And(s[1], 0x80) != 0 || And(s[0], 0x70) != 0 ==> CdpFrame(s).None?
  {
  }

  /** The same of the other reader; `size` is what was made of the length bytes. */
  lemma CdpInParts(s: seq<Byte>, t: seq<Byte>, u: seq<Byte>, code: nat, size: Option<nat>)
    requires |s| >= 2 && And(s[0], 0x80) != 0 && And(s[1], 0x80) == 0 && And(s[0], 0x70) == 0
    requires t == s[2..] && code == And(s[1], 127)
    requires size.None? <==> |t| < ExtendedWidth(code)
    requires size.Some? ==>
      && u == t[ExtendedWidth(code)..]
      && size.value == if ExtendedWidth(code) == 0 then code else FromBigEndian(t[..ExtendedWidth(code)])
    ensures And(s[0], 15) < 16
    ensures if size.None? || size.value > CDP_LIMIT || |u| < size.value then CdpFrame(s).None?
            else CdpFrame(s) == Some((Frame(true, And(s[0], 15), u[..size.value]), u[size.value..]))
  {
    hide And, FromBigEndian, CdpFrame;
    CdpByHeader(s);
    HeaderMasks(s[0]);
    hide ExtendedWidth;
    var start := 2 + ExtendedWidth(code);
    if size.Some? {
      Cut(s, 2, start);
      if |u| >= size.value { Cut(s, start, start + size.value); }
    }
  }

  /** The same of a key and a body that follow one another. */
  lemma CutBody(s: seq<Byte>, from: nat, at: nat, length: nat)
    requires from + at + length <= |s|
    ensures s[from..][..at] == s[from..from + at]
    ensures s[from..][at..at + length] == s[from + at..from + at + length]
    ensures s[from..][at + length..] == s[from + at + length..]
  {
  }

  lemma {:induction false} PongAppended(pongs: seq<seq<Byte>>, keys: seq<Key>, payload: seq<Byte>, key: Key)
    requires |pongs| == |keys|
    ensures PongBytes(pongs + [payload], keys + [key]) == PongBytes(pongs, keys) + ClientFrame(10, key, payload)
  {
    hide ClientFrame;
    if pongs == [] {
      assert PongBytes([payload], [key]) == ClientFrame(10, key, payload) + PongBytes([], []);
    } else {
      PongAppended(pongs[1..], keys[1..], payload, key);
      assert (pongs + [payload])[1..] == pongs[1..] + [payload] && (keys + [key])[1..] == keys[1..] + [key];
    }
  }

  /** `CDP`: a client whose own buffer may already hold bytes of the frames to come. */
  class CdpClient {
    const sock: Socket
    var buffer: seq<Byte>
    var sequence: nat

    constructor (sock: Socket)
      ensures this.sock == sock && buffer == [] && sequence == 0
    {
      this.sock, buffer, sequence := sock, [], 0;
    }

    /** Everything not yet taken, wherever it is. */
    ghost function View(): seq<Byte>
      reads this`buffer, sock`incoming
    {
      buffer + sock.incoming
    }

    /** The next `count` bytes, from the buffer first; raising loses nothing. */
    method Exact(count: nat) returns (r: Option<seq<Byte>>)
      modifies this`buffer, sock`incoming
      ensures |old(View())| >= count ==> r == Some(old(View())[..count]) && View() == old(View())[count..]
      ensures |old(View())| < count ==> r.None? && View() == old(View())
    {
      while |buffer| < count
        invariant View() == old(View())
        decreases if |buffer| < count then count - |buffer| else 0
      {
        var most := count - |buffer|;
        var data := sock.Recv(if most < 65536 then most else 65536);
        if data == [] { return None; }
        assert buffer + (data + sock.incoming) == buffer + data + sock.incoming;
        buffer := buffer + data;
      }
      assert buffer[..count] == View()[..count] && buffer[count..] + sock.incoming == View()[count..];
      r := Some(buffer[..count]);
      buffer := buffer[count..];
    }

    /**
     * Reads up to the first blank line and keeps what follows for the frames. A header whose blank line
     * ends within 8192 bytes is always found; one that ends beyond 12287 never is.
     */
    method Handshake(request: seq<Byte>, accepts: seq<Byte> -> bool) returns (header: Option<seq<Byte>>)
      requires buffer == []
      modifies this`buffer, sock`incoming, sock`sent
      ensures sock.sent == old(sock.sent) + request
      ensures header.Some? ==>
        && FirstBlankLine(old(View()), |header.value|) && header.value == old(View())[..|header.value|]
        && View() == old(View())[|header.value| + 4..] && accepts(header.value) && |header.value| + 4 <= 12287
      ensures forall i: nat :: FirstBlankLine(old(View()), i) && i + 4 <= 8192 ==>
          (header.Some? <==> accepts(old(View())[..i]))
    {
      ghost var whole := View();
      sock.SendAll(request);
      var end := FindBlankLine(buffer, 0);
      while end.None?
        invariant View() == whole && |buffer| <= 12287 && sock.sent == old(sock.sent) + request
        invariant end == FindBlankLine(buffer, 0)
        decreases |sock.incoming|
      {
        if |buffer| >= 8192 {
          NoBlankLineWithin(buffer, sock.incoming);
          return None;
        }
        ghost var before := buffer;
        var data := sock.Recv(4096);
        if data == [] {
          assert buffer == whole;
          return None;
        }
        assert before + (data + sock.incoming) == before + data + sock.incoming;
        buffer := buffer + data;
        end := FindBlankLine(buffer, 0);
      }
      BlankLineInPrefix(buffer, sock.incoming, end.value);
      var text := buffer[..end.value];
      assert text == whole[..end.value];
      buffer := buffer[end.value + 4..];
      assert View() == whole[end.value + 4..];
      assert forall i: nat :: FirstBlankLine(whole, i) ==> i == end.value;
      if !accepts(text) { return None; }
      return Some(text);
    }

    /** Sends one final masked frame; a payload over 1 MiB raises and sends nothing. */
    method Send(payload: seq<Byte>, opcode: Opcode) returns (ok: bool, ghost key: Key)
      modifies sock`sent
      ensures ok <==> |payload| <= CDP_LIMIT
      ensures sock.sent == old(sock.sent) + if ok then ClientFrame(opcode, key, payload) else []
    {
      hide And, Or, BigEndian, Masked;
      var mask := Urandom4();
      key := mask;
      if |payload| > CDP_LIMIT {
        assert sock.sent == sock.sent + [];
        return false, key;
      }
      HeaderMasks(opcode);
      OrHigh(opcode, 0x80);
      OrHigh(LengthCode(|payload|), 0x80);
      var size := |payload|;
      var length: seq<Byte> :=
        if size < 126 then [Or(0x80, size)]
        else if size <= 65535 then [0xFE] + BigEndian(size, 2)
        else [0xFF] + BigEndian(size, 8);
      assert [Or(0x80, opcode)] + length + mask + Masked(mask, payload) == ClientFrame(opcode, key, payload);
      sock.SendAll([Or(0x80, opcode)] + length + mask + Masked(mask, payload));
      return true, key;
    }

    /** The size a length code stands for, with the extended bytes it calls for. */
    method NextSize(code: nat) returns (r: Option<nat>)
      modifies this`buffer, sock`incoming
      ensures var width := ExtendedWidth(code);
        if |old(View())| < width then r.None?
        else (r == Some(if width == 0 then code else FromBigEndian(old(View())[..width]))
              && View() == old(View())[width..])
      ensures IsLeft(View(), old(View()))
    {
      hide FromBigEndian, View;
      LeftOf(View(), ExtendedWidth(code));
      if code == 126 {
        var more := Exact(2);
        if more.None? { return None; }
        return Some(FromBigEndian(more.value));
      } else if code == 127 {
        var more := Exact(8);
        if more.None? { return None; }
        return Some(FromBigEndian(more.value));
      }
      return Some(code);
    }

    /** One turn of the reply loop's frame reader. */
    method NextFrame() returns (r: Option<Frame>)
      modifies this`buffer, sock`incoming
      ensures match CdpFrame(old(View()))
        case None => r.None?
        case Some((f, rest)) => r == Some(f) && View() == rest
      ensures IsLeft(View(), old(View()))
    {
      hide And, FromBigEndian, View, IsLeft, CdpFrame;
      ghost var s := View();
      LeftOf(s, 0);
      LeftOf(s, 2);
      CdpRefused(s);
      var two := Exact(2);
      if two.None? { return None; }
      var a, b := two.value[0], two.value[1];
      if And(a, 0x80) == 0 || And(b, 0x80) != 0 || And(a, 0x70) != 0 { return None; }
      HeaderMasks(a);
      HeaderMasks(b);
      var code := And(b, 127);
      ghost var t := View();
      var declared := NextSize(code);
      ghost var u := View();
      LeftTwice(s, t, u);
      CdpInParts(s, t, u, code, declared);
      if declared.None? { return None; }
      var size := declared.value;
      if size > CDP_LIMIT { return None; }
      LeftOf(u, size);
      var payload := Exact(size);
      LeftTwice(s, u, View());
      if payload.None? { return None; }
      return Some(Frame(true, And(a, 15), payload.value));
    }

    /** The read loop of `Call`: at most 256 frames, every ping among them answered. */
    method AwaitReply<T>(judge: seq<Byte> -> Reply<T>) returns (answer: Option<T>, ghost keys: seq<Key>)
      modifies this`buffer, sock`incoming, sock`sent
      ensures var r := Await(old(View()), judge, FRAME_LIMIT);
        && answer == r.answer && (answer.Some? ==> View() == r.rest)
        && |keys| == |r.pongs| && sock.sent == old(sock.sent) + PongBytes(r.pongs, keys)
      ensures IsLeft(View(), old(View()))
    {
      hide CdpFrame, ClientFrame, Await, PongBytes, View, IsLeft;
      ghost var s := View();
      LeftOf(s, 0);
      ghost var all := Await(View(), judge, FRAME_LIMIT);
      ghost var pongs: seq<seq<Byte>> := [];
      keys := [];
      NoPongs();
      for turn := 0 to FRAME_LIMIT
        invariant |keys| == |pongs| && sock.sent == old(sock.sent) + PongBytes(pongs, keys)
        invariant var r := Await(View(), judge, FRAME_LIMIT - turn);
          all.answer == r.answer && (all.answer.Some? ==> all.rest == r.rest) && all.pongs == pongs + r.pongs
        invariant IsLeft(View(), s)
      {
        assert pongs + [] == pongs;
        AwaitStep(View(), judge, FRAME_LIMIT - turn);
        ghost var before := View();
        var frame := NextFrame();
        LeftTwice(s, before, View());
        if frame.None? { return None, keys; }
        var Frame(_, opcode, payload) := frame.value;
        if opcode == 9 {
          ghost var later := Await(View(), judge, FRAME_LIMIT - turn - 1).pongs;
          var ok, key := Send(payload, 10);
          PongAppended(pongs, keys, payload, key);
          assert pongs + ([payload] + later) == pongs + [payload] + later;
          pongs, keys := pongs + [payload], keys + [key];
          continue;
        }
        if opcode != 1 { return None, keys; }
        match judge(payload)
        case Unrelated =>
        case Failure => return None, keys;
        case Answer(result) => return Some(result), keys;
      }
      AwaitNone(View(), judge);
      assert pongs + [] == pongs;
      return None, keys;
    }

    /** One request and the answer to it. */
    method Call<T>(request: nat -> seq<Byte>, judge: (nat, seq<Byte>) -> Reply<T>)
      returns (answer: Option<T>, ghost key: Key, ghost keys: seq<Key>)
      modifies this, sock`incoming, sock`sent
      ensures sequence == old(sequence) + 1
      ensures |request(sequence)| > CDP_LIMIT ==> answer.None? && sock.sent == old(sock.sent) && View() == old(View())
      ensures |request(sequence)| <= CDP_LIMIT ==>
        var id := sequence;
        var r := Await(old(View()), (text: seq<Byte>) => judge(id, text), FRAME_LIMIT);
        && answer == r.answer && (answer.Some? ==> View() == r.rest)
        && |keys| == |r.pongs|
        && sock.sent == old(sock.sent) + ClientFrame(1, key, request(sequence)) + PongBytes(r.pongs, keys)
      ensures IsLeft(View(), old(View()))
    {
      hide CdpFrame, ClientFrame, Await, PongBytes, IsLeft;
      LeftOf(View(), 0);
      sequence := sequence + 1;
      var id := sequence;
      var admitted, requestKey := Send(request(id), 1);
      key := requestKey;
      if !admitted {
        assert sock.sent == old(sock.sent) + [];
        return None, key, [];
      }
      answer, keys := AwaitReply((text: seq<Byte>) => judge(id, text));
    }
  }

  lemma NoBlankLineWithin(buffer: seq<Byte>, more: seq<Byte>)
    requires |buffer| >= 8192 && forall j: nat :: !BlankLineAt(buffer, j)
    ensures forall i: nat :: i + 4 <= 8192 ==> !BlankLineAt(buffer + more, i)
  {
    forall i: nat | i + 4 <= 8192 ensures !BlankLineAt(buffer + more, i) {
      assert (buffer + more)[i..i + 4] == buffer[i..i + 4];
      assert !BlankLineAt(buffer, i);
    }
  }

  lemma BlankLineInPrefix(buffer: seq<Byte>, more: seq<Byte>, i: nat)
    requires FirstBlankLine(buffer, i)
    ensures FirstBlankLine(buffer + more, i)
    ensures forall j: nat :: FirstBlankLine(buffer + more, j) ==> j == i
  {
    forall j: nat | j <= i ensures BlankLineAt(buffer + more, j) <==> BlankLineAt(buffer, j) {
      assert (buffer + more)[j..j + 4] == buffer[j..j + 4];
    }
  }
}
