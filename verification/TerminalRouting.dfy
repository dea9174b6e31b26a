/**
 * `terminal_route` of `scripts/intendant-mcp-relay.py`: find a tool call's terminal-id slot, and
 * route by the handle in it. Only the slot may decide; everything after it is input text.
 */
module TerminalRouting {
  import opened Common
  import Base64Url
  import opened RelayRouting

  /** A JSON value where the code only asks whether it is a string. */
  datatype Argument = Str(s: string) | NotAString

  /** A body as far as routing looks at it; anything that is no `tools/call` is `Opaque`. */
  datatype Body =
    | Opaque(id: RequestId)
    | ToolCall(id: RequestId, tool: string, terminalId: Option<Argument>, argv: Option<seq<Argument>>)

  const TERMINAL_REFERENCE_PREFIX := "iterm1."
  const TERMINAL_TOOLS := {"terminal_open", "terminal_read", "terminal_write", "terminal_resize", "terminal_close"}
  const FACADE_TOOLS := {"inspect", "act", "authorize"}
  const MAX_HANDLE := 1_607
  const MAX_NAME := 1_024

  // ---------------------------------------------------------------------------------------
  // The flag scanner.
  // ---------------------------------------------------------------------------------------

  function Valued(op: string): set<string> {
    if op == "open" then {"--cols", "--rows"} else if op == "read" then {"--cursor", "--max-bytes"} else {}
  }

  function Booleans(op: string): set<string> {
    if op == "open" then {"--shared"} else if op == "write" then {"--no-enter"} else {}
  }

  /** `word.split("=", 1)[0]` */
  function FlagName(word: string): string {
    Split(word, '=')[0]
  }

  /** `"=" in word` */
  predicate HasValue(word: string) { '=' in word }

  datatype Slot = At(index: nat) | NoSlot | UnknownFlag

  /** Where the scanner ends when it stands at `index`. */
  function Scan(op: string, argv: seq<string>, index: nat): Slot
    decreases |argv| - index
  {
    if index >= |argv| then NoSlot
    else
      var word := argv[index];
      if word == "--" then if index + 1 < |argv| then At(index + 1) else NoSlot
      else if FlagName(word) in Valued(op) then Scan(op, argv, index + if HasValue(word) then 1 else 2)
      else if FlagName(word) in Booleans(op) then Scan(op, argv, index + 1)
      else if "--" <= word then UnknownFlag
      else At(index)
  }

  /** The source's loop. */
  method FindSlot(op: string, argv: seq<string>) returns (slot: Slot)
    requires |argv| >= 2
    ensures slot == Scan(op, argv, 2)
  {
    var index := 2;
    while index < |argv|
      invariant Scan(op, argv, index) == Scan(op, argv, 2)
      decreases |argv| - index
    {
      var word := argv[index];
      if word == "--" {
        index := index + 1;
        if index < |argv| { return At(index); }
        return NoSlot;
      }
      var flag := FlagName(word);
      if flag in Valued(op) {
        index := index + if HasValue(word) then 1 else 2;
      } else if flag in Booleans(op) {
        index := index + 1;
      } else if "--" <= word {
        return UnknownFlag;
      } else {
        return At(index);
      }
    }
    return NoSlot;
  }

  // The grammar the scanner is meant to follow: complete flags of the operation, then either the
  // positional word itself or `--` and the positional word.

  predicate OneWordFlag(op: string, word: string) {
    && word != "--"
    && if FlagName(word) in Valued(op) then HasValue(word) else FlagName(word) in Booleans(op)
  }

  predicate TwoWordFlag(op: string, word: string) {
    word != "--" && FlagName(word) in Valued(op) && !HasValue(word)
  }

  predicate Flags(op: string, words: seq<string>) {
    || words == []
    || (OneWordFlag(op, words[0]) && Flags(op, words[1..]))
    || (|words| >= 2 && TwoWordFlag(op, words[0]) && Flags(op, words[2..]))
  }

  ghost predicate Positional(op: string, argv: seq<string>, from: nat, i: nat) {
    && from <= i < |argv|
    && ((Flags(op, argv[from..i]) && !("--" <= argv[i]))
        || (i > from && Flags(op, argv[from..i - 1]) && argv[i - 1] == "--"))
  }

  lemma NoFlagWithoutDashes(op: string, word: string)
    ensures FlagName(word) in Valued(op) + Booleans(op) ==> "--" <= word
    ensures !OneWordFlag(op, "--") && !TwoWordFlag(op, "--")
  {
    SplitThenJoin(word, '=');
    var fields := Split(word, '=');
    if FlagName(word) in Valued(op) + Booleans(op) {
      assert |fields[0]| >= 2 && fields[0][..2] == "--";
      assert fields[0] <= word by { if |fields| == 1 { assert word == fields[0]; } }
      assert word[..2] == fields[0][..2];
    }
  }

  /** The scanner stops at `i` exactly when the grammar calls `i` the positional word. */
  lemma {:induction false} ScanIffPositional(op: string, argv: seq<string>, from: nat, i: nat)
    ensures Scan(op, argv, from) == At(i) <==> Positional(op, argv, from, i)
    decreases |argv| - from
  {
    hide FlagName, HasValue;
    if from < |argv| {
      var word := argv[from];
      NoFlagWithoutDashes(op, word);
      var next := from + if TwoWordFlag(op, word) then 2 else 1;
      if OneWordFlag(op, word) || TwoWordFlag(op, word) {
        ScanIffPositional(op, argv, next, i);
        FlagsStep(op, argv, from, i);
        if i > from { FlagsStep(op, argv, from, i - 1); }
      } else if from <= i <= |argv| {
        FlagsBlocked(op, argv, from, i);
        if i > from { FlagsBlocked(op, argv, from, i - 1); }
      }
    }
  }

  lemma FlagsStep(op: string, argv: seq<string>, from: nat, i: nat)
    requires from < |argv| && (OneWordFlag(op, argv[from]) || TwoWordFlag(op, argv[from]))
    ensures var next := from + if TwoWordFlag(op, argv[from]) then 2 else 1;
            from <= i <= |argv| ==>
              if i == from then Flags(op, argv[from..i])
              else if i < next then !Flags(op, argv[from..i])
              else Flags(op, argv[from..i]) == Flags(op, argv[next..i])
  {
    hide FlagName, HasValue;
    if from < i <= |argv| {
      var ws := argv[from..i];
      assert ws[1..] == argv[from + 1..i];
      if i >= from + 2 { assert ws[2..] == argv[from + 2..i]; }
      assert !(OneWordFlag(op, argv[from]) && TwoWordFlag(op, argv[from])) by { OneOrTwo(op, argv[from]); }
    }
  }

  lemma OneOrTwo(op: string, word: string)
    ensures !(OneWordFlag(op, word) && TwoWordFlag(op, word))
  {
  }

  lemma FlagsBlocked(op: string, argv: seq<string>, from: nat, i: nat)
    requires from <= i <= |argv| && from < |argv| && !OneWordFlag(op, argv[from]) && !TwoWordFlag(op, argv[from])
    ensures Flags(op, argv[from..i]) <==> i == from
  {
  }

  lemma {:induction false} ScanInRange(op: string, argv: seq<string>, from: nat)
    ensures Scan(op, argv, from).At? ==> from <= Scan(op, argv, from).index < |argv|
    decreases |argv| - from
  {
    hide FlagName, HasValue, Valued, Booleans;
    if from < |argv| {
      ScanInRange(op, argv, from + 1);
      ScanInRange(op, argv, from + 2);
    }
  }

  /** What the scanner saw up to its slot fixes the slot: later words cannot move it. */
  lemma {:induction false} ScanReadsOnlyTheSlot(op: string, argv: seq<string>, other: seq<string>, from: nat)
    requires Scan(op, argv, from).At?
    requires var i := Scan(op, argv, from).index; i < |other| && forall k :: 0 <= k <= i && k < |argv| ==>
        argv[k] == other[k]
    ensures Scan(op, other, from) == Scan(op, argv, from)
    decreases |argv| - from
  {
    hide FlagName, HasValue, Valued, Booleans;
    ScanInRange(op, argv, from);
    var word := argv[from];
    assert other[from] == word;
    if word != "--" {
      if FlagName(word) in Valued(op) {
        ScanReadsOnlyTheSlot(op, argv, other, from + if HasValue(word) then 1 else 2);
      } else if FlagName(word) in Booleans(op) {
        ScanReadsOnlyTheSlot(op, argv, other, from + 1);
      }
    }
  }

  // ---------------------------------------------------------------------------------------
  // Handles.
  // ---------------------------------------------------------------------------------------

  /** Python's `str.isspace`, which `str.strip` removes at both ends. */
  predicate IsSpace(c: char) {
    var n := c as int;
    || 9 <= n <= 13 || 28 <= n <= 32 || 0x2000 <= n <= 0x200A
    || n in {0x85, 0xA0, 0x1680, 0x2028, 0x2029, 0x202F, 0x205F, 0x3000}
  }

  function Strip(s: string): string {
    if s != "" && IsSpace(s[0]) then Strip(s[1..])
    else if s != "" && IsSpace(s[|s| - 1]) then Strip(s[..|s| - 1])
    else s
  }

  predicate ValidShell(s: string) { |s| == 32 && Chars(s, c => 'a' <= c <= 'f' || '0' <= c <= '9') }

  predicate UrlText(s: string) { s != "" && Chars(s, c => Base64Url.UrlValue(c).Some?) }

  function HandleRoute(handle: string, id: RequestId, utf8: seq<Byte> -> bool): Result<Route, RouteError>
    requires TERMINAL_REFERENCE_PREFIX <= handle
  {
    var invalid := Err(RouteError("terminal_invalid_handle", id, false));
    var fields := Split(handle[|TERMINAL_REFERENCE_PREFIX|..], '.');
    if |handle| > MAX_HANDLE || |fields| != 3 || !ValidBootId(fields[0]) || !ValidShell(fields[1])
        || !UrlText(fields[2]) then invalid
    else
      var name := Base64Url.Decode(fields[2]);
      if name.None? || !utf8(name.value) then invalid
      else if !(1 <= |name.value| <= MAX_NAME) || Base64Url.Encode(name.value) != fields[2] then invalid
      else Ok(Route(fields[0], id))
  }

  function Handle(bootId: string, shell: string, name: seq<Byte>): string {
    TERMINAL_REFERENCE_PREFIX + bootId + "." + shell + "." + Base64Url.Encode(name)
  }

  lemma JoinThree(a: string, b: string, c: string)
    ensures Join([a, b, c], '.') == a + "." + b + "." + c
  {
    assert [a, b, c][1..] == [b, c] && [b, c][1..] == [c];
    assert Join([b, c], '.') == b + "." + c;
    assert Join([a, b, c], '.') == a + "." + (b + "." + c);
  }

  lemma HandleFields(bootId: string, shell: string, name: seq<Byte>)
    requires ValidBootId(bootId) && ValidShell(shell)
    ensures Split(Handle(bootId, shell, name)[|TERMINAL_REFERENCE_PREFIX|..], '.') == [bootId, shell,
        Base64Url.Encode(name)]
  {
    hide Base64Url.Encode, Join, Split;
    var text := Base64Url.Encode(name);
    EncodedHasNoDot(name);
    assert Lacks(bootId, '.') && Lacks(shell, '.');
    JoinThenSplit([bootId, shell, text], '.');
    JoinThree(bootId, shell, text);
    assert Handle(bootId, shell, name)[|TERMINAL_REFERENCE_PREFIX|..] == Join([bootId, shell, text], '.');
  }

  lemma HandleFits(bootId: string, shell: string, name: seq<Byte>)
    requires ValidBootId(bootId) && ValidShell(shell) && 1 <= |name| <= MAX_NAME
    ensures |Handle(bootId, shell, name)| <= MAX_HANDLE && UrlText(Base64Url.Encode(name))
  {
    hide Base64Url.Encode;
    Base64Url.PaddedIsRepadded(name);
  }

  /** A handle routes to a daemon exactly when it is that daemon's handle for some shell and name. */
  lemma HandleRoutesIff(handle: string, id: RequestId, utf8: seq<Byte> -> bool, bootId: string)
    requires TERMINAL_REFERENCE_PREFIX <= handle
    ensures HandleRoute(handle, id, utf8) == Ok(Route(bootId, id)) <==>
            exists shell, name :: ValidBootId(bootId) && ValidShell(shell) && 1 <= |name| <= MAX_NAME && utf8(name)
                                  && handle == Handle(bootId, shell, name)
  {
    hide Base64Url.Encode, Base64Url.Decode, ValidShell, ValidBootId, UrlText, Split, Join;
    if HandleRoute(handle, id, utf8) == Ok(Route(bootId, id)) {
      var rest := handle[|TERMINAL_REFERENCE_PREFIX|..];
      var fields := Split(rest, '.');
      SplitThenJoin(rest, '.');
      assert fields == [fields[0], fields[1], fields[2]];
      JoinThree(fields[0], fields[1], fields[2]);
      var name := Base64Url.Decode(fields[2]).value;
      assert handle == TERMINAL_REFERENCE_PREFIX + rest;
      assert handle == Handle(bootId, fields[1], name);
    }
    if shell, name :|
      && ValidBootId(bootId) && ValidShell(shell) && 1 <= |name| <= MAX_NAME && utf8(name)
      && handle == Handle(bootId, shell, name)
    {
      HandleFields(bootId, shell, name);
      HandleFits(bootId, shell, name);
      Base64Url.DecodeEncode(name);
    }
  }

  // ---------------------------------------------------------------------------------------
  // The route of a request.
  // ---------------------------------------------------------------------------------------

  predicate AllStrings(argv: seq<Argument>) { forall i :: 0 <= i < |argv| ==> argv[i].Str? }

  function Words(argv: seq<Argument>): (words: seq<string>)
    requires AllStrings(argv)
    ensures |words| == |argv| && forall i :: 0 <= i < |argv| ==> words[i] == argv[i].s
  {
    seq(|argv|, i requires 0 <= i < |argv| => argv[i].s)
  }

  predicate TerminalCommand(words: seq<string>) {
    |words| >= 3 && words[0] == "terminal" && "terminal_" + words[1] in TERMINAL_TOOLS
  }

  /** The string in the terminal-id slot, as the owning daemon will read it. */
  function TerminalId(body: Body): Option<string> {
    if body.Opaque? then None
    else if body.tool in TERMINAL_TOOLS then
      if body.terminalId.None? || !body.terminalId.value.Str? then None
      else if body.tool == "terminal_open" then Some(Strip(body.terminalId.value.s)) else Some(body.terminalId.value.s)
    else if body.tool !in FACADE_TOOLS || body.argv.None? || !AllStrings(body.argv.value) then None
    else
      var words := Words(body.argv.value);
      if !TerminalCommand(words) then None
      else
        match Scan(words[1], words, 2)
        case At(i) =>
          if i >= |words| then None else if words[1] == "open" then Some(Strip(words[i])) else Some(words[i])
        case _ => None
  }

  function TerminalRoute(body: Body, utf8: seq<Byte> -> bool): Result<Option<Route>, RouteError> {
    var id := TerminalId(body);
    if id.None? || !(TERMINAL_REFERENCE_PREFIX <= id.value) then Ok(None)
    else
      match HandleRoute(id.value, body.id, utf8)
      case Ok(route) => Ok(Some(route))
      case Err(error) => Err(error)
  }

  /** `terminal_route`, with the parsed body as its input. */
  method RouteTerminal(body: Body, utf8: seq<Byte> -> bool) returns (r: Result<Option<Route>, RouteError>)
    ensures r == TerminalRoute(body, utf8)
  {
    if body.Opaque? { return Ok(None); }
    var terminalId: Option<Argument> := None;
    var opens := body.tool == "terminal_open";
    if body.tool in TERMINAL_TOOLS {
      terminalId := body.terminalId;
    } else if body.tool in FACADE_TOOLS {
      if body.argv.None? || !AllStrings(body.argv.value) { return Ok(None); }
      var words := Words(body.argv.value);
      if !TerminalCommand(words) { return Ok(None); }
      opens := words[1] == "open";
      var slot := FindSlot(words[1], words);
      ScanInRange(words[1], words, 2);
      match slot {
        case UnknownFlag => return Ok(None);
        case NoSlot =>
        case At(i) => terminalId := Some(body.argv.value[i]);
      }
    }
    if terminalId.None? || !terminalId.value.Str? { return Ok(None); }
    var id := if opens then Strip(terminalId.value.s) else terminalId.value.s;
    if !(TERMINAL_REFERENCE_PREFIX <= id) { return Ok(None); }
    match HandleRoute(id, body.id, utf8) {
      case Ok(route) => return Ok(Some(route));
      case Err(error) => return Err(error);
    }
  }

  /**
   * Routing reads only the slot: a facade call keeps its route, or its error, whatever strings
   * replace or follow the words after the slot.
   */
  lemma RoutingReadsOnlyTheSlot(id: RequestId, tool: string, argv: seq<Argument>, other: seq<Argument>,
      t1: Option<Argument>, t2: Option<Argument>,
                                utf8: seq<Byte> -> bool)
    requires tool in FACADE_TOOLS && AllStrings(argv) && AllStrings(other)
    requires TerminalCommand(Words(argv)) && Scan(Words(argv)[1], Words(argv), 2).At?
    requires var i := Scan(Words(argv)[1], Words(argv), 2).index;
      i < |argv| && i < |other| && argv[..i + 1] == other[..i + 1]
    ensures TerminalRoute(ToolCall(id, tool, t1, Some(argv)),
        utf8) == TerminalRoute(ToolCall(id, tool, t2, Some(other)), utf8)
  {
    hide HandleRoute, Strip, FlagName, HasValue, Valued, Booleans;
    var op, words, words' := Words(argv)[1], Words(argv), Words(other);
    var i := Scan(op, words, 2).index;
    ScanInRange(op, words, 2);
    assert forall k :: 0 <= k <= i ==> argv[k] == argv[..i + 1][k] == other[..i + 1][k] == other[k];
    assert forall k :: 0 <= k <= i ==> words[k] == words'[k];
    ScanReadsOnlyTheSlot(op, words, words', 2);
    assert words'[0] == words[0] && words'[1] == words[1] && words'[i] == words[i];
  }

  /** The one thing after the slot that routing can see: a word that is no string stops it. */
  lemma NonStringWordIsNotRouted(id: RequestId, tool: string, argv: seq<Argument>, t: Option<Argument>,
      utf8: seq<Byte> -> bool)
    requires tool in FACADE_TOOLS && !AllStrings(argv)
    ensures TerminalRoute(ToolCall(id, tool, t, Some(argv)), utf8) == Ok(None)
  {
    assert tool !in TERMINAL_TOOLS;
  }
}
