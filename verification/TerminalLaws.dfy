/**
 * Which calls `terminal_route` of `scripts/intendant-mcp-relay.py` sends where, in the caller's terms: the
 * tool, its flags and the handle as they are spelled.
 */
module TerminalLaws {
  import opened Common
  import Base64Url
  import opened RelayRouting
  import opened TerminalRouting

  // ---------------------------------------------------------------------------------------
  // Spelling.
  // ---------------------------------------------------------------------------------------

  predicate AllSpaces(s: string) { forall i :: 0 <= i < |s| ==> IsSpace(s[i]) }

  predicate Tight(s: string) { s != "" ==> !IsSpace(s[0]) && !IsSpace(s[|s| - 1]) }

  /** `t` is `s` without the white space around it. */
  ghost predicate Trims(s: string, t: string) {
    Tight(t) && exists before, after :: Around(s, before, t, after)
  }

  predicate Around(s: string, before: string, t: string, after: string) {
    s == before + t + after && AllSpaces(before) && AllSpaces(after)
  }

  lemma Ends(before: string, t: string, after: string)
    ensures var s := before + t + after;
      && (before != "" ==> s[0] == before[0] && s[1..] == before[1..] + t + after)
      && (before == "" && t != "" ==> s[0] == t[0])
      && (before == "" && t == "" && after != "" ==> s[0] == after[0] && s[1..] == "" + t + after[1..])
      && (after != "" ==> s[|s| - 1] == after[|after| - 1] && s[..|s| - 1] == before + t + after[..|after| - 1])
      && (after == "" && t != "" ==> s[|s| - 1] == t[|t| - 1])
  {
  }

  lemma {:induction false} StripTrims(s: string) returns (before: string, after: string)
    ensures Tight(Strip(s)) && Around(s, before, Strip(s), after)
    decreases |s|
  {
    hide IsSpace;
    if s != "" && IsSpace(s[0]) {
      before, after := StripTrims(s[1..]);
      before := [s[0]] + before;
      Ends(before, Strip(s), after);
      assert s == [s[0]] + s[1..];
    } else if s != "" && IsSpace(s[|s| - 1]) {
      before, after := StripTrims(s[..|s| - 1]);
      assert s == before + Strip(s) + (after + [s[|s| - 1]]);
      after := after + [s[|s| - 1]];
    } else {
      before, after := "", "";
    }
  }

  /** There is one way to trim. */
  lemma {:induction false} TrimsOneWay(s: string, t: string, before: string, after: string)
    requires Tight(t) && Around(s, before, t, after)
    ensures Strip(s) == t
    decreases |s|
  {
    hide IsSpace;
    Ends(before, t, after);
    if before != "" {
      TrimsOneWay(s[1..], t, before[1..], after);
    } else if after != "" && t == "" {
      TrimsOneWay(s[1..], t, "", after[1..]);
    } else if after != "" {
      TrimsOneWay(s[..|s| - 1], t, "", after[..|after| - 1]);
    } else {
      assert s == t;
    }
  }

  lemma StripIff(s: string, t: string)
    ensures Strip(s) == t <==> Trims(s, t)
  {
    hide Tight, AllSpaces;
    var before, after := StripTrims(s);
    if Trims(s, t) {
      var first, last :| Around(s, first, t, last);
      TrimsOneWay(s, t, first, last);
    }
  }

  /** A word names flag `f` when it is `f`, or `f` and a value behind an equals sign. */
  lemma FlagNameIff(word: string, f: string)
    requires Lacks(f, '=')
    ensures FlagName(word) == f <==> word == f || f + "=" <= word
    ensures HasValue(word) <==> word != FlagName(word)
  {
    SplitThenJoin(word, '=');
    SplitAtFirst(word, '=', f);
    SplitAtFirst(word, '=', FlagName(word));
  }

  lemma PrefixStep(s: string, f: string, sep: char)
    requires s != ""
    ensures f + [sep] <= s <==>
      if f == "" then s[0] == sep else f[0] == s[0] && f[1..] + [sep] <= s[1..]
  {
    if f != "" { assert f + [sep] == [f[0]] + (f[1..] + [sep]); }
  }

  lemma {:induction false} SplitAtFirst(s: string, sep: char, f: string)
    requires Lacks(f, sep)
    ensures Split(s, sep)[0] == f <==> s == f || f + [sep] <= s
  {
    if s != "" {
      PrefixStep(s, f, sep);
      if f != "" { SplitAtFirst(s[1..], sep, f[1..]); }
    }
  }

  /** `open` and `read` have two flags with a value each, `open` and `write` one without; nothing else is a flag. */
  predicate TakesValue(op: string, flag: string) {
    || (op == "open" && flag in ["--cols", "--rows"])
    || (op == "read" && flag in ["--cursor", "--max-bytes"])
  }

  predicate StandsAlone(op: string, flag: string) {
    (op == "open" && flag == "--shared") || (op == "write" && flag == "--no-enter")
  }

  lemma KnownFlags(op: string, word: string)
    ensures TwoWordFlag(op, word) <==> TakesValue(op, word)
    ensures OneWordFlag(op, word) <==>
      exists f :: (TakesValue(op, f) && f + "=" <= word) || (StandsAlone(op, f) && (word == f || f + "=" <= word))
  {
    var f := FlagName(word);
    SplitThenJoin(word, '=');
    FlagNameIff(word, f);
    assert word == "--" ==> !TakesValue(op, f) && !StandsAlone(op, f);
    forall f | TakesValue(op, f) || StandsAlone(op, f)
      ensures Lacks(f, '=') && (FlagName(word) == f <==> word == f || f + "=" <= word)
    {
      FlagNameIff(word, f);
    }
  }

  // ---------------------------------------------------------------------------------------
  // The slot.
  // ---------------------------------------------------------------------------------------

  predicate Operation(op: string) { op in ["open", "read", "write", "resize", "close"] }

  /** Only `open` lets white space stand around its terminal id. */
  ghost predicate ReadAs(op: string, word: string, slot: string) {
    if op == "open" then Trims(word, slot) else slot == word
  }

  /** The call names `slot`: `terminal_<op>` by its argument, a facade's `terminal <op>` by its positional word. */
  ghost predicate Names(body: Body, slot: string) {
    match body
    case Opaque(_) => false
    case ToolCall(_, tool, terminalId, argv) =>
      || (exists op :: Operation(op) && tool == "terminal_" + op && NamedDirectly(op, terminalId, slot))
      || (tool in ["inspect", "act", "authorize"] && argv.Some? && AllStrings(argv.value)
          && NamedByCommand(Words(argv.value), slot))
  }

  ghost predicate NamedDirectly(op: string, terminalId: Option<Argument>, slot: string) {
    terminalId.Some? && terminalId.value.Str? && ReadAs(op, terminalId.value.s, slot)
  }

  ghost predicate NamedByCommand(words: seq<string>, slot: string) {
    && |words| >= 3 && words[0] == "terminal" && Operation(words[1])
    && exists i: nat :: Positional(words[1], words, 2, i) && ReadAs(words[1], words[i], slot)
  }

  lemma SameTail(a: string, b: string)
    ensures "terminal_" + a == "terminal_" + b <==> a == b
  {
    assert ("terminal_" + a)[|"terminal_"|..] == a && ("terminal_" + b)[|"terminal_"|..] == b;
  }

  lemma Operations(op: string)
    ensures "terminal_" + op in TERMINAL_TOOLS <==> Operation(op)
  {
    forall t | Operation(t) ensures "terminal_" + op == "terminal_" + t <==> op == t { SameTail(op, t); }
    assert "terminal_" + "open" == "terminal_open" && "terminal_" + "read" == "terminal_read";
    assert "terminal_" + "write" == "terminal_write" && "terminal_" + "resize" == "terminal_resize";
    assert "terminal_" + "close" == "terminal_close";
  }

  /** The operation of a terminal tool. */
  lemma OperationOf(tool: string) returns (op: string)
    requires tool in TERMINAL_TOOLS
    ensures Operation(op) && tool == "terminal_" + op
  {
    op := tool[|"terminal_"|..];
    assert tool == "terminal_" + op;
  }

  lemma DirectSlot(body: Body, slot: string)
    requires body.ToolCall? && body.tool in TERMINAL_TOOLS
    ensures TerminalId(body) == Some(slot) <==> Names(body, slot)
  {
    hide Strip, Trims;
    var op := OperationOf(body.tool);
    SameTail(op, "open");
    if body.terminalId.Some? && body.terminalId.value.Str? { StripIff(body.terminalId.value.s, slot); }
    forall other | Operation(other) && body.tool == "terminal_" + other ensures other == op {
      SameTail(op, other);
    }
  }

  lemma CommandSlot(body: Body, slot: string)
    requires body.ToolCall? && body.tool in FACADE_TOOLS && body.argv.Some? && AllStrings(body.argv.value)
    ensures TerminalId(body) == Some(slot) <==> NamedByCommand(Words(body.argv.value), slot)
  {
    hide Strip, Trims, Scan, Positional;
    var words := Words(body.argv.value);
    if |words| >= 3 {
      Operations(words[1]);
      ScanInRange(words[1], words, 2);
      forall i: nat ensures Scan(words[1], words, 2) == At(i) <==> Positional(words[1], words, 2, i) {
        ScanIffPositional(words[1], words, 2, i);
      }
      forall i | 0 <= i < |words| ensures Strip(words[i]) == slot <==> Trims(words[i], slot) {
        StripIff(words[i], slot);
      }
    }
  }

  lemma SlotIff(body: Body, slot: string)
    ensures TerminalId(body) == Some(slot) <==> Names(body, slot)
  {
    hide Strip, Trims, Scan, NamedDirectly, NamedByCommand;
    if body.ToolCall? {
      forall op | Operation(op) ensures "terminal_" + op in TERMINAL_TOOLS { Operations(op); }
      if body.tool in TERMINAL_TOOLS {
        DirectSlot(body, slot);
      } else if body.tool in FACADE_TOOLS && body.argv.Some? && AllStrings(body.argv.value) {
        CommandSlot(body, slot);
      }
    }
  }

  // ---------------------------------------------------------------------------------------
  // The route.
  // ---------------------------------------------------------------------------------------

  /** `slot` is a terminal of daemon `b`: some shell and some UTF-8 name of 1 to 1024 bytes spell it. */
  ghost predicate TerminalOf(slot: string, b: string, utf8: seq<Byte> -> bool) {
    ValidBootId(b) && exists shell, name :: Spells(slot, b, shell, name, utf8)
  }

  predicate Spells(slot: string, b: string, shell: string, name: seq<Byte>, utf8: seq<Byte> -> bool) {
    ValidShell(shell) && 1 <= |name| <= 1024 && utf8(name)
    && slot == "iterm1." + b + "." + shell + "." + Base64Url.Encode(name)
  }

  lemma HandleIff(slot: string, id: RequestId, utf8: seq<Byte> -> bool, b: string)
    requires "iterm1." <= slot
    ensures HandleRoute(slot, id, utf8) == Ok(Route(b, id)) <==> TerminalOf(slot, b, utf8)
  {
    hide HandleRoute, Base64Url.Encode, ValidShell, ValidBootId;
    HandleRoutesIff(slot, id, utf8, b);
    if TerminalOf(slot, b, utf8) {
      var shell, name :| Spells(slot, b, shell, name, utf8);
      assert slot == Handle(b, shell, name);
    }
    if shell, name :|
      && ValidBootId(b) && ValidShell(shell) && 1 <= |name| <= MAX_NAME && utf8(name)
      && slot == Handle(b, shell, name)
    {
      assert Spells(slot, b, shell, name, utf8);
    }
  }

  lemma TerminalHasPrefix(slot: string, b: string, utf8: seq<Byte> -> bool)
    requires TerminalOf(slot, b, utf8)
    ensures "iterm1." <= slot
  {
    hide Base64Url.Encode, ValidShell, ValidBootId;
  }

  lemma HandleOutcomes(slot: string, id: RequestId, utf8: seq<Byte> -> bool)
    requires "iterm1." <= slot
    ensures match HandleRoute(slot, id, utf8)
      case Ok(route) => route.requestId == id
      case Err(error) => error == RouteError("terminal_invalid_handle", id, false)
  {
    hide Split, Base64Url.Encode, Base64Url.Decode, ValidShell, ValidBootId, UrlText;
  }

  /** A call is routed to daemon `b` exactly when it names a terminal of that daemon. */
  lemma RoutedIff(body: Body, utf8: seq<Byte> -> bool, b: string)
    ensures TerminalRoute(body, utf8) == Ok(Some(Route(b, body.id))) <==>
      exists slot :: Names(body, slot) && TerminalOf(slot, b, utf8)
  {
    hide TerminalId, Names, HandleRoute, TerminalOf;
    forall slot ensures TerminalId(body) == Some(slot) <==> Names(body, slot) { SlotIff(body, slot); }
    forall slot | TerminalOf(slot, b, utf8) ensures "iterm1." <= slot { TerminalHasPrefix(slot, b, utf8); }
    forall slot | "iterm1." <= slot
      ensures HandleRoute(slot, body.id, utf8) == Ok(Route(b, body.id)) <==> TerminalOf(slot, b, utf8)
    {
      HandleIff(slot, body.id, utf8, b);
    }
  }

  /** It is refused exactly when what it names begins like a handle and is no daemon's terminal. */
  lemma RefusedIff(body: Body, utf8: seq<Byte> -> bool)
    ensures TerminalRoute(body, utf8) == Err(RouteError("terminal_invalid_handle", body.id, false)) <==>
      exists slot :: Names(body, slot) && "iterm1." <= slot && !exists b :: TerminalOf(slot, b, utf8)
    ensures TerminalRoute(body, utf8).Err? <==>
      TerminalRoute(body, utf8) == Err(RouteError("terminal_invalid_handle", body.id, false))
  {
    hide TerminalId, Names, HandleRoute, TerminalOf;
    forall slot ensures TerminalId(body) == Some(slot) <==> Names(body, slot) { SlotIff(body, slot); }
    if id: string :| Names(body, id) && "iterm1." <= id {
      HandleOutcomes(id, body.id, utf8);
      forall b ensures HandleRoute(id, body.id, utf8) == Ok(Route(b, body.id)) <==> TerminalOf(id, b, utf8) {
        HandleIff(id, body.id, utf8, b);
      }
      assert HandleRoute(id, body.id, utf8).Err? <==> !exists b :: TerminalOf(id, b, utf8) by {
        if HandleRoute(id, body.id, utf8).Ok? {
          assert TerminalOf(id, HandleRoute(id, body.id, utf8).value.bootId, utf8);
        }
      }
    }
  }

  /** In every other case it goes to the active daemon: what it names, if anything, does not begin like a handle. */
  lemma UnroutedIff(body: Body, utf8: seq<Byte> -> bool)
    ensures TerminalRoute(body, utf8) == Ok(None) <==> forall slot :: Names(body, slot) ==> !("iterm1." <= slot)
  {
    hide TerminalId, Names, HandleRoute;
    forall slot ensures TerminalId(body) == Some(slot) <==> Names(body, slot) { SlotIff(body, slot); }
  }
}
