/** The tool calls of one turn of the conversation engine: how many, and how many reply bytes. */
module ToolBudget {
  import opened Wrappers
  import opened Json
  import opened JsonCost
  import JsonText
  import Utf8

  const TOOL_TEXT_CAP := 65536
  const TOOL_REPLY_RESERVATION := 131584
  const TOOL_TURN_WIRE_CAP := 1048576
  const ANALYSIS_TOOL_TEXT_CAP := 1088 * 1024
  const ANALYSIS_TOOL_REPLY_RESERVATION := 2 * ANALYSIS_TOOL_TEXT_CAP + 512
  const ANALYSIS_TOOL_TURN_WIRE_CAP := 18 * 1024 * 1024
  const TOOL_CALL_CAP := 8
  const TOOL_REFUSAL_CAP := 4
  const REFUSAL_WIRE := 1024
  const ID_WIRE := 258

  // ---------- what JSON text may hold

  /** A string's rest up to its closing quote, and what follows it. */
  function StringEnd(s: string): (r: Option<string>)
    ensures r.Some? ==> |r.value| < |s|
  {
    if s == "" || s[0] < ' ' then None
    else if s[0] == '\"' then Some(s[1..])
    else if s[0] == '\\' then (if |s| < 2 || s[1] < ' ' then None else StringEnd(s[2..]))
    else StringEnd(s[1..])
  }

  /** Every JSON text is made of strings, of blanks, and of characters that are not controls. */
  predicate Lexes(s: string)
    decreases |s|
  {
    if s == "" then true
    else if s[0] == '\"' then (match StringEnd(s[1..]) case None => false case Some(rest) => Lexes(rest))
    else (Blank(s[0]) || s[0] >= ' ') && Lexes(s[1..])
  }

  lemma {:induction false} StringTame(s: string)
    requires StringEnd(s).Some?
    ensures Tame(s[..|s| - |StringEnd(s).value|]) && s[|s| - |StringEnd(s).value|..] == StringEnd(s).value
  {
    var rest := StringEnd(s).value;
    if s[0] == '\"' {
    } else if s[0] == '\\' {
      StringTame(s[2..]);
      assert s[..|s| - |rest|] == s[..2] + s[2..][..|s| - 2 - |rest|];
      assert s[|s| - |rest|..] == s[2..][|s| - 2 - |rest|..];
    } else {
      StringTame(s[1..]);
      assert s[..|s| - |rest|] == s[..1] + s[1..][..|s| - 1 - |rest|];
      assert s[|s| - |rest|..] == s[1..][|s| - 1 - |rest|..];
    }
  }

  /** Text that is JSON holds no control character but the three blanks. */
  lemma {:induction false} LexedIsTame(s: string)
    requires Lexes(s)
    ensures Tame(s)
    decreases |s|
  {
    if s != "" {
      if s[0] == '\"' {
        var rest := StringEnd(s[1..]).value;
        StringTame(s[1..]);
        LexedIsTame(rest);
        assert s == s[..1] + s[1..][..|s| - 1 - |rest|] + rest;
      } else {
        LexedIsTame(s[1..]);
        assert s == s[..1] + s[1..];
      }
    }
  }

  // ---------- a reply on the wire

  predicate GoodId(id: Value) {
    match id
    case Str(s) => 0 < |Utf8.Encode(s)| <= 128 && CostOf(id).bytes <= ID_WIRE
    case Num(n) => -0x8000_0000_0000_0000 <= n < 0x8000_0000_0000_0000
    case _ => false
  }

  /** What a request may be called: a short string, or an integer of 64 bits. */
  lemma IdWhen(id: Value)
    ensures GoodId(id) <==>
            || (id.Str? && 1 <= |Utf8.Encode(id.s)| <= 128 && CostOf(id).bytes <= 258)
            || (id.Num? && -9223372036854775808 <= id.n <= 9223372036854775807)
  {
    hide CostOf, Utf8.Encode;
  }

  /** An identifier of either kind is short on the wire. */
  lemma IdBytes(id: Value)
    requires GoodId(id)
    ensures CostOf(id).bytes <= 258
  {
    if id.Num? {
      var n := if id.n < 0 then -id.n else id.n;
      assert Ten(19) == 10000000000000000000 by { assert Ten(5) == 100000; assert Ten(10) == 10000000000; assert Ten(15) == 1000000000000000; }
      DigitsShort(n, 19, 10000000000000000000);
    }
  }

  function Content(text: string): Value {
    Arr([Obj([Field("type", Str("inputText")), Field("text", Str(text))])])
  }

  function Reply(id: Value, success: bool, text: string): Value {
    Obj([Field("id", id), Field("result", Obj([Field("success", Bool(success)), Field("contentItems", Content(text))]))])
  }

  /** A reply takes its text, quoted, and little more. */
  lemma ReplyBytes(id: Value, success: bool, text: string)
    requires GoodId(id)
    ensures |Utf8.Encode(Print(Reply(id, success, text)))| <= QuotedBytes(text) + 338
  {
    hide *;
    IdBytes(id);
    ReplyAtMost(id, success, text);
  }

  lemma ReplyAtMost(id: Value, success: bool, text: string)
    requires CostOf(id).bytes <= 258
    ensures |Utf8.Encode(Print(Reply(id, success, text)))| <= QuotedBytes(text) + 338
  {
    hide CostOf, QuotedBytes, Print, Utf8.Encode;
    var item := Obj([Field("type", Str("inputText")), Field("text", Str(text))]);
    var result := Obj([Field("success", Bool(success)), Field("contentItems", Content(text))]);
    PrintedBytes(Reply(id, success, text));
    TwoFields("id", id, "result", result);
    TwoFields("success", Bool(success), "contentItems", Content(text));
    TwoFields("type", Str("inputText"), "text", Str(text));
    OneItem(item);
    LeafBytes(success, text);
    LeafBytes(success, "inputText");
    PlainBytes("id"); PlainBytes("result"); PlainBytes("success"); PlainBytes("contentItems"); PlainBytes("type"); PlainBytes("text"); PlainBytes("inputText");
  }

  /** A reply with accepted text always fits its reservation. */
  lemma ReplyFits(id: Value, success: bool, text: string, cap: nat)
    requires GoodId(id) && Lexes(text) && |Utf8.Encode(text)| <= cap
    ensures |Utf8.Encode(Print(Reply(id, success, text)))| <= 2 * cap + 512
  {
    hide Print, Utf8.Encode, QuotedBytes, CostOf, Lexes;
    ReplyBytes(id, success, text);
    LexedIsTame(text);
    EscapeAtMostDoubles(text);
    QuotedLength(text);
  }

  // ---------- refusals

  datatype Reason = InvalidArguments | ReadBudget | ToolBudget

  function ReasonText(r: Reason): string {
    match r
    case InvalidArguments => "invalid-arguments"
    case ReadBudget => "read-budget-exhausted"
    case ToolBudget => "tool-budget-exhausted"
  }

  function RefusalText(history: bool, r: Reason): string {
    Print(Obj([Field("schema", Str(SchemaText(history))), Field("code", Str(ReasonText(r)))]))
  }

  function SchemaText(history: bool): string {
    if history then "neurobro-history-tool-error-v1" else "neurobro-tool-error-v1"
  }

  lemma ReasonBytes(r: Reason)
    ensures QuotedBytes(ReasonText(r)) <= 23
  {
    hide QuotedBytes;
    match r {
      case InvalidArguments => PlainBytes("invalid-arguments");
      case ReadBudget => PlainBytes("read-budget-exhausted");
      case ToolBudget => PlainBytes("tool-budget-exhausted");
    }
  }

  lemma SchemaBytes(history: bool)
    ensures QuotedBytes(SchemaText(history)) <= 32
  {
    hide QuotedBytes;
    if history { PlainBytes("neurobro-history-tool-error-v1"); } else { PlainBytes("neurobro-tool-error-v1"); }
  }

  lemma RefusalBytes(history: bool, r: Reason)
    ensures |Utf8.Encode(RefusalText(history, r))| <= 80 && Tame(RefusalText(history, r))
  {
    hide CostOf, QuotedBytes, Print, Utf8.Encode, SchemaText, ReasonText;
    var v := Obj([Field("schema", Str(SchemaText(history))), Field("code", Str(ReasonText(r)))]);
    PrintedBytes(v);
    TwoFields("schema", Str(SchemaText(history)), "code", Str(ReasonText(r)));
    LeafBytes(true, SchemaText(history));
    LeafBytes(true, ReasonText(r));
    PlainBytes("schema");
    PlainBytes("code");
    ReasonBytes(r);
    SchemaBytes(history);
    PrintClean(v);
  }

  /** Every refusal fits the kilobyte kept for it. */
  lemma {:induction false} RefusalFits(id: Value, history: bool, r: Reason)
    requires GoodId(id)
    ensures |Utf8.Encode(Print(Reply(id, false, RefusalText(history, r))))| <= REFUSAL_WIRE
  {
    hide Print, Utf8.Encode, QuotedBytes, CostOf, RefusalText;
    ReplyBytes(id, false, RefusalText(history, r));
    RefusalBytes(history, r);
    EscapeAtMostDoubles(RefusalText(history, r));
    QuotedLength(RefusalText(history, r));
  }

  /** A refusal word for word. */
  lemma RefusalWords(history: bool, r: Reason)
    ensures RefusalText(history, r) ==
            ['{'] + Quote("schema") + [':'] + Quote(if history then "neurobro-history-tool-error-v1" else "neurobro-tool-error-v1")
            + [','] + Quote("code") + [':'] + Quote(if r.InvalidArguments? then "invalid-arguments" else if r.ReadBudget? then "read-budget-exhausted" else "tool-budget-exhausted") + ['}']
  {
    hide Quote;
    JsonText.TwoFieldsText("schema", Str(SchemaText(history)), "code", Str(ReasonText(r)));
    QuotedString(SchemaText(history));
    QuotedString(ReasonText(r));
  }

  lemma QuotedString(s: string)
    ensures Print(Str(s)) == Quote(s)
  {
  }

  /** A reply, with its text quoted inside it. */
  lemma ReplyWords(id: Value, success: bool, text: string)
    ensures Print(Reply(id, success, text)) ==
            var item := ['{'] + Quote("type") + [':'] + Quote("inputText") + [','] + Quote("text") + [':'] + Quote(text) + ['}'];
            var result := ['{'] + Quote("success") + [':'] + (if success then "true" else "false") + [','] + Quote("contentItems") + [':'] + (['['] + item + [']']) + ['}'];
            ['{'] + Quote("id") + [':'] + Print(id) + [','] + Quote("result") + [':'] + result + ['}']
  {
    var item := Obj([Field("type", Str("inputText")), Field("text", Str(text))]);
    var result := Obj([Field("success", Bool(success)), Field("contentItems", Content(text))]);
    hide Quote;
    JsonText.TwoFieldsText("id", id, "result", result);
    JsonText.TwoFieldsText("success", Bool(success), "contentItems", Content(text));
    JsonText.TwoFieldsText("type", Str("inputText"), "text", Str(text));
    JsonText.ItemsText(item, []);
    QuotedString("inputText");
    QuotedString(text);
    assert Print(Bool(success)) == if success then "true" else "false";
  }

  // ---------- the budget of a turn

  datatype Tool = History | AnalysisRead | AnalysisCommit | OtherTool

  /** `configured` is whether the thread has a configuration of its own, `community` whether it is the
      assessment's; analysis scope is the one without the other. */
  datatype Budget = Budget(configured: bool, community: bool, calls: nat, refusals: nat, bytes: nat, readCalls: nat, commits: nat)
  {
    predicate Analysis() { configured && !community }

    function TextCap(): nat { if Analysis() then ANALYSIS_TOOL_TEXT_CAP else TOOL_TEXT_CAP }

    function ReplyCap(): nat { if Analysis() then ANALYSIS_TOOL_REPLY_RESERVATION else TOOL_REPLY_RESERVATION }

    function TurnCap(): nat { if Analysis() then ANALYSIS_TOOL_TURN_WIRE_CAP else TOOL_TURN_WIRE_CAP }

    /** A whole reply and every refusal still allowed would fit. */
    predicate BytesLeft() {
      bytes + ReplyCap() + (TOOL_REFUSAL_CAP - refusals) * REFUSAL_WIRE <= TurnCap()
    }

    predicate Admits(t: Tool) {
      && calls < TOOL_CALL_CAP && BytesLeft()
      && (configured && t.AnalysisRead? ==> readCalls < TOOL_CALL_CAP - 1)
    }

    /** Why a call is refused: for its arguments, unless a budget is spent. */
    function Refusal(t: Tool, arguments: bool): Option<Reason> {
      if configured && t.AnalysisRead? && readCalls >= TOOL_CALL_CAP - 1 then Some(ToolBudget)
      else if calls >= TOOL_CALL_CAP || !BytesLeft() then Some(if t.History? then ReadBudget else ToolBudget)
      else if !arguments then Some(InvalidArguments)
      else None
    }

    predicate Sound() {
      && calls <= TOOL_CALL_CAP && refusals <= TOOL_REFUSAL_CAP && readCalls <= TOOL_CALL_CAP - 1
      && bytes + (TOOL_REFUSAL_CAP - refusals) * REFUSAL_WIRE <= TurnCap()
      && bytes <= calls * ReplyCap() + refusals * REFUSAL_WIRE
      && (configured ==> calls == readCalls + commits)
    }

    function Accepted(t: Tool, wire: nat): Budget {
      this.(calls := calls + 1, bytes := bytes + wire, readCalls := readCalls + (if configured && t.AnalysisRead? then 1 else 0),
            commits := commits + (if configured && !t.AnalysisRead? then 1 else 0))
    }

    function Declined(wire: nat): Budget {
      this.(refusals := refusals + 1, bytes := bytes + wire)
    }
  }

  /** Which budget refuses a call, in numbers: eight calls, or no room left for a whole reply and every refusal;
      and seven reads, where reads are counted. A call the budgets allow is refused for its arguments only. */
  lemma WhatRefuses(b: Budget, t: Tool, arguments: bool)
    ensures var full := b.calls >= 8 || if b.configured && !b.community then b.bytes + 2228736 + (4 - b.refusals) * 1024 > 18874368
                                        else b.bytes + 131584 + (4 - b.refusals) * 1024 > 1048576;
            var readOut := b.configured && t.AnalysisRead? && b.readCalls >= 7;
            && (b.Admits(t) <==> !full && !readOut)
            && (b.Refusal(t, arguments) == Some(InvalidArguments) <==> !full && !readOut && !arguments)
            && (b.Refusal(t, arguments) == Some(ReadBudget) <==> full && t.History?)
            && (b.Refusal(t, arguments) == Some(ToolBudget) <==> (full && !t.History?) || readOut)
            && (b.Refusal(t, arguments) == None <==> !full && !readOut && arguments)
    ensures b.TextCap() == if b.configured && !b.community then 1114112 else 65536
  {
  }

  /** A whole reply after an admission, or a refusal while any is left, keeps every later refusal possible. */
  lemma BudgetKept(b: Budget, t: Tool, wire: nat)
    requires b.Sound()
    ensures b.Admits(t) && wire <= b.ReplyCap() ==> b.Accepted(t, wire).Sound() && b.bytes + wire <= b.TurnCap()
    ensures b.refusals < TOOL_REFUSAL_CAP && wire <= REFUSAL_WIRE ==> b.Declined(wire).Sound() && b.bytes + wire <= b.TurnCap()
  {
  }

  /** In analysis scope bytes never run out before calls do. */
  lemma AnalysisBytesNeverBind(b: Budget)
    requires b.Sound() && b.Analysis() && b.calls < TOOL_CALL_CAP
    ensures b.BytesLeft()
  {
    assert b.calls * b.ReplyCap() <= 7 * b.ReplyCap();
  }

  /** So reads, of which there are at most seven, always leave room for a first commit. */
  lemma FirstCommitFits(b: Budget)
    requires b.Sound() && b.Analysis() && b.commits == 0
    ensures b.Admits(AnalysisCommit)
  {
    AnalysisBytesNeverBind(b);
  }

  /** In the base scope bytes can refuse only the eighth call, and do exactly when seven replies were large. */
  lemma BaseBytesBindLast(b: Budget)
    requires b.Sound() && !b.Analysis() && b.calls < TOOL_CALL_CAP
    ensures !b.BytesLeft() <==> b.calls == 7 && b.bytes > 912896 + b.refusals * REFUSAL_WIRE
  {
    if b.calls < 7 { assert b.calls * b.ReplyCap() <= 6 * b.ReplyCap(); }
  }

  /** A reply of either kind fits what was reserved for it and leaves the budget sound. */
  lemma SettleFits(b: Budget, t: Tool, id: Value, success: bool, text: string, refusal: Option<Reason>)
    requires b.Sound() && GoodId(id)
    requires match refusal
             case Some(r) => b.refusals < TOOL_REFUSAL_CAP && !success && text == RefusalText(t.History?, r)
             case None => b.Admits(t) && Lexes(text) && |Utf8.Encode(text)| <= b.TextCap()
    ensures var wire := |Utf8.Encode(Print(Reply(id, success, text)))|;
            && wire <= b.ReplyCap() && b.bytes + wire <= b.TurnCap()
            && (if refusal.Some? then b.Declined(wire) else b.Accepted(t, wire)).Sound()
  {
    hide Lexes, Print, Utf8.Encode, RefusalText, GoodId, Reply, Budget.Sound;
    if refusal.Some? { RefusalFits(id, t.History?, refusal.value); } else { ReplyFits(id, success, text, b.TextCap()); }
    BudgetKept(b, t, |Utf8.Encode(Print(Reply(id, success, text)))|);
  }

  datatype Answer = Replied(success: bool, text: string) | Declined(reason: Reason) | Failed

  class Engine {
    var budget: Budget
    var exhausted: bool
    var poisoned: bool
    var seenIds: set<Value>
    var seenCalls: set<string>
    var responded: set<Value>

    predicate Valid()
      reads this
    {
      budget.Sound() && responded <= seenIds
    }

    constructor (configured: bool, community: bool)
      ensures Valid() && !poisoned && budget == Budget(configured, community, 0, 0, 0, 0, 0) && seenIds == {} && seenCalls == {} && responded == {}
    {
      budget, exhausted, poisoned, seenIds, seenCalls, responded := Budget(configured, community, 0, 0, 0, 0, 0), false, false, {}, {}, {};
    }

    /** A new turn starts a new budget; identifiers are never forgotten. */
    method BeginTurn()
      requires Valid()
      modifies `budget, `exhausted
      ensures Valid() && budget == Budget(old(budget).configured, old(budget).community, 0, 0, 0, 0, 0)
    {
      budget, exhausted := Budget(budget.configured, budget.community, 0, 0, 0, 0, 0), false;
    }

    /** One tool call from the native side. `outcome` is what the host's callback returns in time,
        `parses` whether its text is a JSON object, `written` whether the reply went out. */
    method Request(id: Value, callId: string, tool: Tool, shaped: bool, arguments: bool,
                   outcome: Option<(bool, string)>, parses: bool, written: bool) returns (r: Answer)
      requires Valid() && !poisoned
      requires outcome.Some? && parses ==> Lexes(outcome.value.1)
      modifies this
      ensures Valid() && (r.Failed? <==> poisoned)
      ensures !r.Failed? <==>
                && shaped && GoodId(id) && id !in old(seenIds) && callId !in old(seenCalls) && written
                && (if arguments && old(budget).Admits(tool) then outcome.Some? && parses && |Utf8.Encode(outcome.value.1)| <= old(budget).TextCap()
                    else old(budget).refusals < TOOL_REFUSAL_CAP)
      ensures !r.Failed? ==> id !in old(seenIds) && callId !in old(seenCalls) && shaped && written
      ensures !r.Failed? ==>
                || (id.Str? && 1 <= |Utf8.Encode(id.s)| <= 128 && CostOf(id).bytes <= 258)
                || (id.Num? && -9223372036854775808 <= id.n <= 9223372036854775807)
      ensures !r.Failed? ==> seenIds == old(seenIds) + {id} && seenCalls == old(seenCalls) + {callId} && responded == old(responded) + {id}
      ensures r.Replied? ==> arguments && old(budget).Admits(tool) && outcome == Some((r.success, r.text)) && parses
      ensures r.Replied? ==> budget == old(budget).Accepted(tool, |Utf8.Encode(Print(Reply(id, r.success, r.text)))|)
      ensures r.Declined? ==> !(arguments && old(budget).Admits(tool)) && old(budget).refusals < TOOL_REFUSAL_CAP
      ensures r.Declined? ==> budget == old(budget).Declined(|Utf8.Encode(Print(Reply(id, false, RefusalText(tool.History?, r.reason))))|)
      ensures r.Declined? ==> Some(r.reason) == old(budget).Refusal(tool, arguments)
      ensures exhausted == (old(exhausted) || (shaped && GoodId(id) && id !in old(seenIds) && callId !in old(seenCalls) && !old(budget).Admits(tool)))
    {
      hide Lexes, Print, Utf8.Encode, RefusalText, CostOf, GoodId, Reply, Budget.Sound, Budget.Admits, Budget.Refusal;
      IdWhen(id);
      if !shaped || !GoodId(id) || id in seenIds || callId in seenCalls {
        poisoned := true;
        return Failed;
      }
      seenIds, seenCalls := seenIds + {id}, seenCalls + {callId};
      r := Settle(id, tool, arguments, outcome, parses, written);
    }

    /** The budget of a call that came as it should, and its reply. */
    method Settle(id: Value, tool: Tool, arguments: bool, outcome: Option<(bool, string)>, parses: bool, written: bool) returns (r: Answer)
      requires Valid() && !poisoned && GoodId(id) && id in seenIds
      requires outcome.Some? && parses ==> Lexes(outcome.value.1)
      modifies `budget, `exhausted, `poisoned, `responded
      ensures Valid() && (r.Failed? <==> poisoned)
      ensures !r.Failed? <==>
                written && (if arguments && old(budget).Admits(tool) then outcome.Some? && parses && |Utf8.Encode(outcome.value.1)| <= old(budget).TextCap()
                            else old(budget).refusals < TOOL_REFUSAL_CAP)
      ensures !r.Failed? ==> responded == old(responded) + {id}
      ensures r.Replied? ==> arguments && old(budget).Admits(tool) && outcome == Some((r.success, r.text)) && parses
      ensures r.Replied? ==> budget == old(budget).Accepted(tool, |Utf8.Encode(Print(Reply(id, r.success, r.text)))|)
      ensures r.Declined? ==> !(arguments && old(budget).Admits(tool)) && Some(r.reason) == old(budget).Refusal(tool, arguments)
      ensures r.Declined? ==> budget == old(budget).Declined(|Utf8.Encode(Print(Reply(id, false, RefusalText(tool.History?, r.reason))))|)
      ensures exhausted == (old(exhausted) || !old(budget).Admits(tool))
    {
      hide Lexes, Print, Utf8.Encode, RefusalText, CostOf, GoodId, Reply, Budget.Sound;
      var refusal := if arguments then None else Some(InvalidArguments);
      if budget.calls >= TOOL_CALL_CAP || !budget.BytesLeft() {
        refusal, exhausted := Some(if tool.History? then ReadBudget else ToolBudget), true;
      }
      var read := budget.configured && tool.AnalysisRead?;
      if read && budget.readCalls >= TOOL_CALL_CAP - 1 {
        refusal, exhausted := Some(ToolBudget), true;
      }
      assert refusal == budget.Refusal(tool, arguments) && (refusal == None <==> arguments && budget.Admits(tool));
      r := Write(id, tool, refusal, outcome, parses, written);
    }

    /** Reserve and write the reply; its size is checked, but always fits. */
    method Write(id: Value, tool: Tool, refusal: Option<Reason>, outcome: Option<(bool, string)>, parses: bool, written: bool) returns (r: Answer)
      requires Valid() && !poisoned && GoodId(id) && id in seenIds && (refusal == None ==> budget.Admits(tool))
      requires outcome.Some? && parses ==> Lexes(outcome.value.1)
      modifies `budget, `poisoned, `responded
      ensures Valid() && (r.Failed? <==> poisoned)
      ensures !r.Failed? <==>
                written && (if refusal == None then outcome.Some? && parses && |Utf8.Encode(outcome.value.1)| <= old(budget).TextCap()
                            else old(budget).refusals < TOOL_REFUSAL_CAP)
      ensures !r.Failed? ==> responded == old(responded) + {id} && r == if refusal.Some? then Answer.Declined(refusal.value) else Replied(outcome.value.0, outcome.value.1)
      ensures r.Replied? ==> budget == old(budget).Accepted(tool, |Utf8.Encode(Print(Reply(id, r.success, r.text)))|)
      ensures r.Declined? ==> budget == old(budget).Declined(|Utf8.Encode(Print(Reply(id, false, RefusalText(tool.History?, r.reason))))|)
    {
      hide Lexes, Print, Utf8.Encode, RefusalText, GoodId, Reply, Budget.Sound, Budget.Admits, Budget.TextCap, Budget.TurnCap, Budget.ReplyCap, Budget.Accepted, Budget.Declined;
      var proper := if refusal.Some? then budget.refusals < TOOL_REFUSAL_CAP
                    else outcome.Some? && parses && |Utf8.Encode(outcome.value.1)| <= budget.TextCap();
      r := Failed;
      if proper {
        var success, text := false, "";
        if refusal.Some? { text := RefusalText(tool.History?, refusal.value); } else { success, text := outcome.value.0, outcome.value.1; }
        var wire := |Utf8.Encode(Print(Reply(id, success, text)))|;
        SettleFits(budget, tool, id, success, text, refusal);
        if wire > budget.ReplyCap() || budget.bytes + wire > budget.TurnCap() { assert false; }
        budget := if refusal.Some? then budget.Declined(wire) else budget.Accepted(tool, wire);
        if written { r := if refusal.Some? then Answer.Declined(refusal.value) else Replied(success, text); }
      }
      poisoned := r.Failed?;
      if !poisoned { responded := responded + {id}; }
    }
  }

  // ---------- a turn whose eighth call is refused for bytes

  /** A tool's answer: a JSON object with one value, a run of quotes. */
  function Quotes(n: nat): string { if n == 0 then "" else "\"" + Quotes(n - 1) }

  function Large(n: nat): Value { Obj([Field("a", Str(Quotes(n)))]) }

  const MANY := 32764

  lemma {:induction false} QuotesEscape(n: nat, rest: string)
    ensures |Escape(Quotes(n))| == 2 * n && |Escape(Escape(Quotes(n)))| == 4 * n
    ensures forall i :: 0 <= i < 2 * n ==> Escape(Quotes(n))[i] as int < 0x80
    ensures StringEnd(Escape(Quotes(n)) + "\"" + rest) == Some(rest)
    decreases n
  {
    var e, tail := Escape(Quotes(n)), "\"" + rest;
    if n == 0 {
      assert e + "\"" + rest == tail;
    } else {
      QuotesEscape(n - 1, rest);
      var less := Escape(Quotes(n - 1));
      assert Quotes(n)[1..] == Quotes(n - 1);
      assert e == "\\\"" + less;
      assert e[1..] == "\"" + less && e[1..][1..] == less;
      assert Escape(e) == EscapeChar('\\') + (EscapeChar('\"') + Escape(less));
      assert (e + "\"" + rest)[2..] == less + "\"" + rest;
    }
  }

  /** The text of such an answer, piece by piece. */
  lemma LargeText(n: nat)
    ensures Print(Large(n)) == "{\"a\":\"" + Escape(Quotes(n)) + "\"}"
  {
    assert Escape("a") == "a" by { PlainEscape("a"); }
    var fs := Large(n).fields;
    assert PrintFields(fs) == Quote("a") + ":" + Print(fs[0].value) + "" by {
      hide Escape, Quote;
      assert fs[1..] == [];
    }
  }

  /** It is a JSON object of 2n + 8 bytes, and escaped again it takes at least 4n. */
  lemma LargeFits(n: nat)
    ensures Parse(Print(Large(n))) == Some(Large(n)) && Lexes(Print(Large(n)))
    ensures |Utf8.Encode(Print(Large(n)))| == 2 * n + 8
    ensures QuotedBytes(Print(Large(n))) >= 4 * n
  {
    var e, text := Escape(Quotes(n)), Print(Large(n));
    LargeText(n);
    QuotesEscape(n, "}");
    LargeParses(n);
    Utf8.AsciiLength(text);
    LargeLexes(e, text);
    LargeEscapes(e, text);
  }

  lemma LargeParses(n: nat)
    ensures Parse(Print(Large(n))) == Some(Large(n))
  {
    assert Keys(Large(n).fields) == ["a"];
    ParsePrint(Large(n));
  }

  lemma LargeLexes(e: string, text: string)
    requires text == "{\"a\":\"" + e + "\"}" && StringEnd(e + "\"" + "}") == Some("}")
    ensures Lexes(text)
  {
    var inner := e + "\"" + "}";
    assert text[1..] == "\"a\":\"" + inner;
    assert text[1..][1..] == "a\":\"" + inner;
    assert StringEnd("a\":\"" + inner) == StringEnd("\":\"" + inner) == Some(":\"" + inner) by {
      assert ("a\":\"" + inner)[1..] == "\":\"" + inner;
      assert ("\":\"" + inner)[1..] == ":\"" + inner;
    }
    assert (":\"" + inner)[1..] == "\"" + inner && ("\"" + inner)[1..] == inner;
    assert "}"[1..] == "";
    assert Lexes("}");
    assert Lexes("\"" + inner);
    assert Lexes(":\"" + inner);
    assert Lexes(text[1..]);
  }

  lemma LargeEscapes(e: string, text: string)
    requires text == "{\"a\":\"" + e + "\"}"
    ensures QuotedBytes(text) >= |Escape(e)|
  {
    EscapeConcat("{\"a\":\"" + e, "\"}");
    EscapeConcat("{\"a\":\"", e);
    QuotedLength(text);
    Utf8.EncodeLength(Escape(text));
  }

  lemma {:induction false} EscapeConcat(a: string, b: string)
    ensures Escape(a + b) == Escape(a) + Escape(b)
  {
    if a == "" {
      assert a + b == b;
    } else {
      assert (a + b)[1..] == a[1..] + b;
      EscapeConcat(a[1..], b);
    }
  }

  /** A reply is at least as long as its quoted text. */
  lemma ReplyAtLeast(id: Value, success: bool, text: string)
    ensures |Utf8.Encode(Print(Reply(id, success, text)))| >= QuotedBytes(text)
  {
    hide CostOf, QuotedBytes, Print, Utf8.Encode;
    var item := Obj([Field("type", Str("inputText")), Field("text", Str(text))]);
    var result := Obj([Field("success", Bool(success)), Field("contentItems", Content(text))]);
    PrintedBytes(Reply(id, success, text));
    TwoFields("id", id, "result", result);
    TwoFields("success", Bool(success), "contentItems", Content(text));
    TwoFields("type", Str("inputText"), "text", Str(text));
    OneItem(item);
    LeafBytes(success, text);
  }

  lemma SmallId(n: nat)
    requires n < 10
    ensures GoodId(Num(n))
  {
    assert Ten(1) == 10;
    DigitsShort(n, 1, 10);
  }

  /** A turn of the base engine in which seven calls get an answer of the full 65536 bytes, a JSON object,
      and the eighth is refused although only seven calls were made: no bytes are left for it. */
  method SevenLargeReplies() returns (e: Engine, last: Answer)
    ensures fresh(e) && e.Valid() && !e.poisoned && e.exhausted
    ensures e.budget.calls == 7 && e.budget.refusals == 1 && last == Answer.Declined(Reason.ToolBudget)
    ensures Parse(Print(Large(MANY))) == Some(Large(MANY)) && |Utf8.Encode(Print(Large(MANY)))| == TOOL_TEXT_CAP
  {
    var text := Print(Large(MANY));
    LargeFits(MANY);
    hide Print, Utf8.Encode, QuotedBytes, Lexes, Parse, GoodId, Large, Quotes, Reply, RefusalText;
    e := new Engine(false, false);
    var callId := "c";
    for i := 0 to 7
      invariant e.Valid() && !e.poisoned && |callId| == i + 1 && fresh(e)
      invariant !e.budget.configured && e.budget.calls == i && e.budget.refusals == 0 && e.budget.bytes >= i * 4 * MANY
      invariant forall v :: v in e.seenIds ==> v.Num? && v.n < i
      invariant forall c :: c in e.seenCalls ==> |c| <= i
    {
      SmallId(i);
      ReplyAtLeast(Num(i), true, text);
      BaseBytesBindLast(e.budget);
      last := e.Request(Num(i), callId, OtherTool, true, true, Some((true, text)), true, true);
      callId := callId + "c";
    }
    SmallId(7);
    BaseBytesBindLast(e.budget);
    last := e.Request(Num(7), callId, OtherTool, true, true, Some((true, text)), true, true);
  }
}
