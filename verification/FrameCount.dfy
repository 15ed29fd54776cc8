/** How the conversation engine counts the bytes of native frames: payloads it recognises go
    to one counter, everything else to another. */
module FrameCount {
  import opened Wrappers
  import opened Dictionary
  import opened Json
  import opened JsonCost
  import Utf8

  const EVENT_BYTES_CAP := 262144
  const ANALYSIS_EVENT_BYTES_CAP := 2097152
  const LIFECYCLE_CAP := 2097152
  const ANALYSIS_LIFECYCLE_CAP := 64 * 1024 * 1024
  const FILE_TEXT_CAP := 65536
  const FILE_TOOL := "neurobro_create_text_file"
  const COMMIT_TOOL := "neurobro_analysis_commit"

  /** The engine's registry and mode. `accepts` is a registered validator that leaves its
      argument alone; `content` is the check on tool results. */
  datatype Engine = Engine(registered: set<string>, accepts: (string, Value) -> bool, content: Value -> bool, configured: bool, community: bool)
  {
    function EventCap(): nat { if configured && !community then ANALYSIS_EVENT_BYTES_CAP else EVENT_BYTES_CAP }

    function LifecycleCap(): nat { if configured && !community then ANALYSIS_LIFECYCLE_CAP else LIFECYCLE_CAP }
  }

  function Bytes(v: Value): nat { CostOf(v).bytes }

  /** Replacing a field changes the length by what its value's length changes. */
  lemma SetBytes(v: Value, key: string, x: Value)
    requires Get(v, key).Some?
    ensures Bytes(Set(v, key, x)) + Bytes(Get(v, key).value) == Bytes(v) + Bytes(x)
  {
    var i := Find(v.fields, key).value;
    var fs := Set(v, key, x).fields;
    ObjectBytes(v.fields, i);
    ObjectBytes(fs, i);
    hide CostOf, FieldCost;
    var a, b := FieldCosts(v.fields), FieldCosts(fs);
    assert b == a[i := b[i]];
    ReplaceTotal(a, i, b[i]);
  }

  lemma ObjectBytes(fs: seq<Field>, i: nat)
    requires i < |fs|
    ensures Bytes(Obj(fs)) == Frame(|fs|) + Total(FieldCosts(fs)).bytes
    ensures FieldCosts(fs)[i].bytes == Bytes(fs[i].value) + QuotedBytes(fs[i].key) + 1
  {
  }

  lemma ReplaceTotal(cs: seq<Cost>, i: nat, c: Cost)
    requires i < |cs|
    ensures Total(cs[i := c]).bytes + cs[i].bytes == Total(cs).bytes + c.bytes
  {
    assert cs == cs[..i] + ([cs[i]] + cs[i + 1..]);
    assert cs[i := c] == cs[..i] + ([c] + cs[i + 1..]);
    TotalMiddle(cs[..i], cs[i], cs[i + 1..]);
    TotalMiddle(cs[..i], c, cs[i + 1..]);
  }

  lemma EmptyBytes()
    ensures Bytes(Str("")) == 2 && Bytes(Arr([])) == 2 && Bytes(Obj([])) == 2
  {
    QuotedLength("");
  }

  // ---------- one payload

  /** What is left of a value, the bytes moved to the other counter, and how many commits. */
  datatype Stripped = Stripped(rest: Value, moved: nat, commits: nat)

  predicate Named(e: Engine, v: Value, tool: string) {
    v.Obj? && Get(v, "tool") == Some(Str(tool)) && tool in e.registered && Get(v, "namespace") in {None, Some(Null)}
  }

  /** A text file to be created: its text is the payload. */
  predicate HasFileText(e: Engine, v: Value) {
    Named(e, v, FILE_TOOL) && Get(v, "arguments").Some? &&
    var args := Get(v, "arguments").value;
    && args.Obj? && |args.fields| == 2 && Get(args, "filename").Some? && Get(args, "text").Some? && Get(args, "text").value.Str?
    && 1 <= |Utf8.Encode(Get(args, "text").value.s)| <= FILE_TEXT_CAP && e.accepts(FILE_TOOL, args)
  }

  function StripFile(e: Engine, v: Value): Stripped {
    if HasFileText(e, v) then
      var args := Get(v, "arguments").value;
      QuotedLength(Get(args, "text").value.s);
      Stripped(Set(v, "arguments", Set(args, "text", Str(""))), Bytes(Get(args, "text").value) - 2, 0)
    else Stripped(v, 0, 0)
  }

  /** A commit of an isolated analysis: all its arguments are the payload. */
  predicate HasCommit(e: Engine, v: Value) {
    e.configured && Named(e, v, COMMIT_TOOL) && Get(v, "arguments").Some? && Get(v, "arguments").value.Obj? && e.accepts(COMMIT_TOOL, Get(v, "arguments").value)
  }

  function StripCommit(e: Engine, v: Value): Stripped {
    if HasCommit(e, v) then Stripped(Set(v, "arguments", Obj([])), Bytes(Get(v, "arguments").value), 1)
    else Stripped(v, 0, 0)
  }

  /** One stripping after another. */
  function Then(a: Stripped, b: Stripped): Stripped {
    Stripped(b.rest, a.moved + b.moved, a.commits + b.commits)
  }

  function StripPayload(e: Engine, v: Value): Stripped {
    var a := StripFile(e, v);
    Then(a, StripCommit(e, a.rest))
  }

  /** Nothing escapes both counters; a commit's empty brackets are counted twice. */
  predicate Conserves(v: Value, s: Stripped) {
    Bytes(s.rest) + s.moved == Bytes(v) + 2 * s.commits
  }

  lemma FileConserved(e: Engine, v: Value)
    ensures Conserves(v, StripFile(e, v))
  {
    hide CostOf;
    EmptyBytes();
    if HasFileText(e, v) {
      var args := Get(v, "arguments").value;
      QuotedLength(Get(args, "text").value.s);
      SetBytes(args, "text", Str(""));
      SetBytes(v, "arguments", Set(args, "text", Str("")));
    }
  }

  lemma CommitConserved(e: Engine, v: Value)
    ensures Conserves(v, StripCommit(e, v))
  {
    EmptyBytes();
    if HasCommit(e, v) { SetBytes(v, "arguments", Obj([])); }
  }

  lemma PayloadConserved(e: Engine, v: Value)
    ensures Conserves(v, StripPayload(e, v))
  {
    FileConserved(e, v);
    CommitConserved(e, StripFile(e, v).rest);
  }

  // ---------- one item, and a list of them

  predicate ToolItem(v: Value) {
    v.Obj? && Get(v, "type") == Some(Str("dynamicToolCall"))
  }

  /** A registered call that carries its results. */
  predicate HasContent(e: Engine, v: Value) {
    && (match Get(v, "tool") case Some(Str(t)) => t in e.registered case _ => false)
    && Get(v, "namespace") in {None, Some(Null)} && Get(v, "contentItems") !in {None, Some(Null)}
  }

  function StripContent(e: Engine, v: Value): Option<Stripped> {
    if !HasContent(e, v) then Some(Stripped(v, 0, 0))
    else
      var items := Get(v, "contentItems").value;
      if items.Arr? && e.content(items) then Some(Stripped(Set(v, "contentItems", Arr([])), Bytes(items) - 2, 0)) else None
  }

  function StripItem(e: Engine, v: Value): Option<Stripped> {
    if !ToolItem(v) then Some(Stripped(v, 0, 0))
    else
      var a := StripPayload(e, v);
      match StripContent(e, a.rest)
      case None => None
      case Some(b) => Some(Then(a, b))
  }

  lemma ItemConserved(e: Engine, v: Value)
    requires StripItem(e, v).Some?
    ensures Conserves(v, StripItem(e, v).value)
  {
    if ToolItem(v) {
      var a := StripPayload(e, v);
      PayloadConserved(e, v);
      EmptyBytes();
      if HasContent(e, a.rest) { SetBytes(a.rest, "contentItems", Arr([])); }
    }
  }

  /** A list stripped from the front. */
  function StripItems(e: Engine, items: seq<Value>): Option<(seq<Value>, nat, nat)> {
    if items == [] then Some(([], 0, 0))
    else match StripItems(e, items[..|items| - 1])
      case None => None
      case Some((rest, moved, commits)) =>
        match StripItem(e, items[|items| - 1])
        case None => None
        case Some(s) => Some((rest + [s.rest], moved + s.moved, commits + s.commits))
  }

  function ListBytes(items: seq<Value>): nat { Total(ItemCosts(items)).bytes }

  lemma ListMore(items: seq<Value>, v: Value)
    ensures ListBytes(items + [v]) == ListBytes(items) + Bytes(v)
  {
    assert ItemCosts(items + [v]) == ItemCosts(items) + [CostOf(v)];
    TotalConcat(ItemCosts(items), [CostOf(v)]);
    assert [CostOf(v)][1..] == [];
  }

  lemma {:induction false} ItemsConserved(e: Engine, items: seq<Value>)
    requires StripItems(e, items).Some?
    ensures var (rest, moved, commits) := StripItems(e, items).value;
            |rest| == |items| && Bytes(Arr(rest)) + moved == Bytes(Arr(items)) + 2 * commits
  {
    hide StripItem, CostOf;
    if items != [] {
      var n := |items| - 1;
      ItemsConserved(e, items[..n]);
      ItemConserved(e, items[n]);
      ListMore(items[..n], items[n]);
      ListMore(StripItems(e, items[..n]).value.0, StripItem(e, items[n]).value.rest);
      assert items == items[..n] + [items[n]];
    }
    if StripItems(e, items).Some? {
      ArrayBytes(items);
      ArrayBytes(StripItems(e, items).value.0);
      if items != [] {
        ArrayBytes(items[..|items| - 1]);
        ArrayBytes(StripItems(e, items[..|items| - 1]).value.0);
      }
    }
  }

  lemma ArrayBytes(items: seq<Value>)
    ensures Bytes(Arr(items)) == Frame(|items|) + ListBytes(items)
  {
  }

  // ---------- a frame

  function MethodOf(frame: Value): string {
    match Get(frame, "method") case Some(Str(m)) => m case _ => ""
  }

  /** The items a turn's snapshot carries. */
  predicate HasTurnItems(params: Value) {
    Get(params, "turn").Some? && Get(params, "turn").value.Obj? && Get(Get(params, "turn").value, "items").Some? && Get(Get(params, "turn").value, "items").value.Arr?
  }

  function StripParams(e: Engine, name: string, params: Value): Option<Stripped> {
    if name == "item/tool/call" then Some(StripPayload(e, params))
    else if name in {"item/started", "item/completed"} then
      (match Get(params, "item")
       case None => Some(Stripped(params, 0, 0))
       case Some(item) =>
         match StripItem(e, item)
         case None => None
         case Some(s) => Some(Stripped(Set(params, "item", s.rest), s.moved, s.commits)))
    else if name in {"turn/started", "turn/completed"} && HasTurnItems(params) then
      var turn := Get(params, "turn").value;
      (match StripItems(e, Get(turn, "items").value.items)
       case None => None
       case Some((rest, moved, commits)) => Some(Stripped(Set(params, "turn", Set(turn, "items", Arr(rest))), moved, commits)))
    else Some(Stripped(params, 0, 0))
  }

  function StripFrame(e: Engine, frame: Value): Option<Stripped> {
    if Get(frame, "params") == None || !Get(frame, "params").value.Obj? then Some(Stripped(frame, 0, 0))
    else match StripParams(e, MethodOf(frame), Get(frame, "params").value)
      case None => None
      case Some(s) => Some(Stripped(Set(frame, "params", s.rest), s.moved, s.commits))
  }

  lemma {:induction false} ParamsConserved(e: Engine, name: string, params: Value)
    requires StripParams(e, name, params).Some?
    ensures Conserves(params, StripParams(e, name, params).value)
  {
    hide StripItem, StripPayload, CostOf;
    if name == "item/tool/call" {
      PayloadConserved(e, params);
    } else if name in {"item/started", "item/completed"} && Get(params, "item").Some? {
      ItemConserved(e, Get(params, "item").value);
      SetBytes(params, "item", StripItem(e, Get(params, "item").value).value.rest);
    } else if name in {"turn/started", "turn/completed"} && HasTurnItems(params) {
      var turn := Get(params, "turn").value;
      var items := Get(turn, "items").value.items;
      ItemsConserved(e, items);
      var rest := StripItems(e, items).value.0;
      SetBytes(turn, "items", Arr(rest));
      SetBytes(params, "turn", Set(turn, "items", Arr(rest)));
    }
  }

  /** Ordinary bytes and moved bytes are the frame's bytes, and two more for every commit. */
  lemma FrameConserved(e: Engine, frame: Value)
    requires StripFrame(e, frame).Some?
    ensures Conserves(frame, StripFrame(e, frame).value)
  {
    hide StripParams, CostOf;
    if Get(frame, "params").Some? && Get(frame, "params").value.Obj? {
      var params := Get(frame, "params").value;
      ParamsConserved(e, MethodOf(frame), params);
      SetBytes(frame, "params", StripParams(e, MethodOf(frame), params).value.rest);
    }
  }

  // ---------- what is moved, told outright

  predicate Plainly(v: Value, e: Engine, tool: string) {
    Get(v, "tool") == Some(Str(tool)) && tool in e.registered && (Get(v, "namespace") == None || Get(v, "namespace") == Some(Null))
  }

  /** A registered text file of 1 to 65536 bytes gives up its text and nothing else; a registered commit of a
      configured engine gives up all its arguments; no other call gives up anything. */
  lemma PayloadMoves(e: Engine, v: Value)
    ensures var (s, args) := (StripPayload(e, v), Get(v, "arguments"));
            if Plainly(v, e, "neurobro_create_text_file") && args.Some? && args.value.Obj? && |args.value.fields| == 2
               && Get(args.value, "filename").Some? && Get(args.value, "text").Some? && Get(args.value, "text").value.Str?
               && 1 <= |Utf8.Encode(Get(args.value, "text").value.s)| <= 65536 && e.accepts("neurobro_create_text_file", args.value)
            then
              && s.moved == Bytes(Get(args.value, "text").value) - 2 && s.commits == 0
              && Get(s.rest, "arguments").Some? && Get(Get(s.rest, "arguments").value, "text") == Some(Str(""))
              && (forall k :: k != "text" ==> Get(Get(s.rest, "arguments").value, k) == Get(args.value, k))
              && (forall k :: k != "arguments" ==> Get(s.rest, k) == Get(v, k))
            else if e.configured && Plainly(v, e, "neurobro_analysis_commit") && args.Some? && args.value.Obj? && e.accepts("neurobro_analysis_commit", args.value)
            then
              && s.moved == Bytes(args.value) && s.commits == 1 && Get(s.rest, "arguments") == Some(Obj([]))
              && (forall k :: k != "arguments" ==> Get(s.rest, k) == Get(v, k))
            else s == Stripped(v, 0, 0)
  {
    hide CostOf, Set, Get, Utf8.Encode, HasFileText, HasCommit, StripPayload;
    Recognised(e, v);
    if HasFileText(e, v) {
      FilePayload(e, v);
    } else {
      OtherPayload(e, v);
    }
  }

  lemma Recognised(e: Engine, v: Value)
    ensures var args := Get(v, "arguments");
            HasFileText(e, v) == (
              && Plainly(v, e, "neurobro_create_text_file") && args.Some? && args.value.Obj? && |args.value.fields| == 2
              && Get(args.value, "filename").Some? && Get(args.value, "text").Some? && Get(args.value, "text").value.Str?
              && 1 <= |Utf8.Encode(Get(args.value, "text").value.s)| <= 65536 && e.accepts("neurobro_create_text_file", args.value))
    ensures var args := Get(v, "arguments");
            HasCommit(e, v) == (
              && e.configured && Plainly(v, e, "neurobro_analysis_commit") && args.Some? && args.value.Obj?
              && e.accepts("neurobro_analysis_commit", args.value))
  {
    hide CostOf, Set, Utf8.Encode;
  }

  lemma FilePayload(e: Engine, v: Value)
    requires HasFileText(e, v)
    ensures var (s, args) := (StripPayload(e, v), Get(v, "arguments").value);
            && s == StripFile(e, v) && s.moved == Bytes(Get(args, "text").value) - 2 && s.commits == 0
            && Get(s.rest, "arguments").Some? && Get(Get(s.rest, "arguments").value, "text") == Some(Str(""))
            && (forall k :: k != "text" ==> Get(Get(s.rest, "arguments").value, k) == Get(args, k))
            && (forall k :: k != "arguments" ==> Get(s.rest, k) == Get(v, k))
  {
    hide CostOf, Set, Get, Utf8.Encode, HasCommit;
    FileMoves(e, v);
    CommitIsNoFile(e, v);
  }

  lemma OtherPayload(e: Engine, v: Value)
    requires !HasFileText(e, v)
    ensures var s := StripPayload(e, v);
            if HasCommit(e, v) then
              && s.moved == Bytes(Get(v, "arguments").value) && s.commits == 1 && Get(s.rest, "arguments") == Some(Obj([]))
              && (forall k :: k != "arguments" ==> Get(s.rest, k) == Get(v, k))
            else s == Stripped(v, 0, 0)
  {
    hide CostOf, Set, Get, Utf8.Encode;
    if HasCommit(e, v) {
      forall k ensures Get(Set(v, "arguments", Obj([])), k) == if k == "arguments" then Some(Obj([])) else Get(v, k) { GetSet(v, "arguments", k, Obj([])); }
    }
  }

  lemma FileMoves(e: Engine, v: Value)
    requires HasFileText(e, v)
    ensures var (r, args) := (StripFile(e, v).rest, Get(v, "arguments").value);
            && Get(r, "arguments") == Some(Set(args, "text", Str("")))
            && (forall k :: k != "arguments" ==> Get(r, k) == Get(v, k))
            && (forall k :: Get(Set(args, "text", Str("")), k) == if k == "text" then Some(Str("")) else Get(args, k))
  {
    hide CostOf, Set, Get;
    var args := Get(v, "arguments").value;
    var x := Set(args, "text", Str(""));
    forall k ensures Get(Set(v, "arguments", x), k) == if k == "arguments" then Some(x) else Get(v, k) { GetSet(v, "arguments", k, x); }
    forall k ensures Get(x, k) == if k == "text" then Some(Str("")) else Get(args, k) { GetSet(args, "text", k, Str("")); }
  }

  lemma CommitIsNoFile(e: Engine, v: Value)
    requires HasFileText(e, v)
    ensures !HasCommit(e, StripFile(e, v).rest)
  {
    var r := StripFile(e, v).rest;
    assert Get(r, "tool") == Some(Str(FILE_TOOL)) by {
      hide CostOf, Set, Get, StripFile;
      FileMoves(e, v);
    }
    hide StripFile, Get, Set, CostOf, HasFileText;
    assert FILE_TOOL[9] != COMMIT_TOOL[9];
  }

  /** A finished call among the items also gives up its results, if its tool is registered, and is refused if these
      are not what results must be; an item of another kind gives up nothing. */
  lemma ItemMoves(e: Engine, v: Value)
    ensures var (p, content) := (StripPayload(e, v), Get(v, "contentItems"));
            if !(v.Obj? && Get(v, "type") == Some(Str("dynamicToolCall"))) then StripItem(e, v) == Some(Stripped(v, 0, 0))
            else if !(Get(v, "tool").Some? && Get(v, "tool").value.Str? && Plainly(v, e, Get(v, "tool").value.s) && content.Some? && content.value != Null) then StripItem(e, v) == Some(p)
            else if content.value.Arr? && e.content(content.value) then
              && StripItem(e, v).Some?
              && StripItem(e, v).value.moved == p.moved + Bytes(content.value) - 2 && StripItem(e, v).value.commits == p.commits
              && Get(StripItem(e, v).value.rest, "contentItems") == Some(Arr([]))
              && forall k :: k != "contentItems" ==> Get(StripItem(e, v).value.rest, k) == Get(p.rest, k)
            else StripItem(e, v) == None
  {
    hide CostOf, Set, Get, StripPayload;
    if v.Obj? { PayloadKeeps(e, v); }
    if ToolItem(v) && HasContent(e, StripPayload(e, v).rest) {
      var r := StripPayload(e, v).rest;
      forall k ensures Get(Set(r, "contentItems", Arr([])), k) == if k == "contentItems" then Some(Arr([])) else Get(r, k) { GetSet(r, "contentItems", k, Arr([])); }
    }
  }

  lemma PayloadKeeps(e: Engine, v: Value)
    ensures forall k :: k != "arguments" ==> Get(StripPayload(e, v).rest, k) == Get(v, k)
  {
    hide StripPayload, Get, Plainly;
    PayloadMoves(e, v);
  }

  /** Which parts of a frame are looked at: the parameters of a call, the item of an item event, each item of a
      turn event's snapshot; nothing in a frame of any other method. */
  lemma FrameMoves(e: Engine, frame: Value)
    ensures var (name, params) := (Get(frame, "method"), Get(frame, "params"));
            if params == None || !params.value.Obj? then StripFrame(e, frame) == Some(Stripped(frame, 0, 0))
            else if name == Some(Str("item/tool/call")) then
              var s := StripPayload(e, params.value);
              StripFrame(e, frame) == Some(Stripped(Set(frame, "params", s.rest), s.moved, s.commits))
            else if (name == Some(Str("item/started")) || name == Some(Str("item/completed"))) && Get(params.value, "item").Some? then
              match StripItem(e, Get(params.value, "item").value)
              case None => StripFrame(e, frame) == None
              case Some(s) => StripFrame(e, frame) == Some(Stripped(Set(frame, "params", Set(params.value, "item", s.rest)), s.moved, s.commits))
            else if (name == Some(Str("turn/started")) || name == Some(Str("turn/completed"))) && HasTurnItems(params.value) then
              match StripItems(e, Get(Get(params.value, "turn").value, "items").value.items)
              case None => StripFrame(e, frame) == None
              case Some((_, moved, commits)) => StripFrame(e, frame).Some? && StripFrame(e, frame).value.moved == moved && StripFrame(e, frame).value.commits == commits
            else StripFrame(e, frame).Some? && StripFrame(e, frame).value.moved == 0 && StripFrame(e, frame).value.commits == 0
  {
    hide CostOf, Set, Get, StripPayload, StripItem, StripItems, HasTurnItems;
  }

  // ---------- a turn

  datatype Counted = Counted(ordinary: nat, lifecycle: nat)

  /** The counters after one more accepted frame. */
  function CountOne(e: Engine, c: Counted, frame: Value): Option<Counted> {
    match StripFrame(e, frame)
    case None => None
    case Some(s) =>
      if c.lifecycle + s.moved <= e.LifecycleCap() && c.ordinary + Bytes(s.rest) <= e.EventCap()
      then Some(Counted(c.ordinary + Bytes(s.rest), c.lifecycle + s.moved)) else None
  }

  function CountAll(e: Engine, frames: seq<Value>): Option<Counted> {
    if frames == [] then Some(Counted(0, 0))
    else match CountAll(e, frames[..|frames| - 1])
      case None => None
      case Some(c) => CountOne(e, c, frames[|frames| - 1])
  }

  function TrafficBytes(frames: seq<Value>): nat {
    if frames == [] then 0 else TrafficBytes(frames[..|frames| - 1]) + Bytes(frames[|frames| - 1])
  }

  /** How many commit payloads the frames carry. */
  function Commits(e: Engine, frames: seq<Value>): nat {
    if frames == [] then 0
    else Commits(e, frames[..|frames| - 1]) + match StripFrame(e, frames[|frames| - 1]) case None => 0 case Some(s) => s.commits
  }

  /** Over a whole turn no byte escapes both counters, so all traffic is bounded by the two caps. */
  lemma {:induction false} TurnConserved(e: Engine, frames: seq<Value>)
    requires CountAll(e, frames).Some?
    ensures var c := CountAll(e, frames).value;
            && c.ordinary + c.lifecycle == TrafficBytes(frames) + 2 * Commits(e, frames)
            && c.ordinary <= e.EventCap() && c.lifecycle <= e.LifecycleCap()
            && TrafficBytes(frames) <= if e.configured && !e.community then 2097152 + 67108864 else 262144 + 2097152
  {
    hide StripFrame, CostOf;
    if frames != [] {
      var n := |frames| - 1;
      TurnConserved(e, frames[..n]);
      FrameConserved(e, frames[n]);
    }
  }

  // ---------- the counters as the engine keeps them

  function Saturating(cap: nat, n: nat): nat { if n <= cap then n else cap + 1 }

  lemma SaturatesOnce(cap: nat, a: nat, b: nat)
    ensures Saturating(cap, Saturating(cap, a) + b) == Saturating(cap, a + b)
    ensures Saturating(cap, a) <= cap <==> a <= cap
  {
  }

  class Receipt {
    const engine: Engine
    var historyLifecycleBytes: nat
    var eventBytes: nat

    constructor (engine: Engine)
      ensures this.engine == engine && historyLifecycleBytes == 0 && eventBytes == 0
    {
      this.engine, historyLifecycleBytes, eventBytes := engine, 0, 0;
    }

    /** Move bytes to the lifecycle counter. */
    method Move(n: nat)
      modifies `historyLifecycleBytes
      ensures historyLifecycleBytes == Saturating(engine.LifecycleCap(), old(historyLifecycleBytes) + n)
    {
      historyLifecycleBytes := Saturating(engine.LifecycleCap(), historyLifecycleBytes + n);
    }

    /** Strip a list of items in place, one after another. */
    method CountItems(items: seq<Value>) returns (rest: Option<seq<Value>>)
      modifies `historyLifecycleBytes
      ensures rest.Some? <==> StripItems(engine, items).Some?
      ensures rest.Some? ==> rest.value == StripItems(engine, items).value.0
      ensures rest.Some? ==> Saturating(engine.LifecycleCap(), historyLifecycleBytes) == Saturating(engine.LifecycleCap(), old(historyLifecycleBytes) + StripItems(engine, items).value.1)
      ensures eventBytes == old(eventBytes)
    {
      hide StripItem;
      var done: seq<Value> := [];
      ghost var start := historyLifecycleBytes;
      for i := 0 to |items|
        invariant StripItems(engine, items[..i]).Some? && done == StripItems(engine, items[..i]).value.0
        invariant Saturating(engine.LifecycleCap(), historyLifecycleBytes) == Saturating(engine.LifecycleCap(), start + StripItems(engine, items[..i]).value.1)
      {
        assert items[..i + 1][..i] == items[..i];
        var s := StripItem(engine, items[i]);
        if s == None {
          Unstrippable(engine, items, i);
          return None;
        }
        ghost var before := historyLifecycleBytes;
        Move(s.value.moved);
        SaturatesOnce(engine.LifecycleCap(), before, s.value.moved);
        SaturatesOnce(engine.LifecycleCap(), start + StripItems(engine, items[..i]).value.1, s.value.moved);
        SaturatesOnce(engine.LifecycleCap(), before + s.value.moved, 0);
        done := done + [s.value.rest];
      }
      assert items[..|items|] == items;
      rest := Some(done);
    }

    /** Strip one frame, moving the bytes of what is recognised in it. */
    method Strip(frame: Value) returns (rest: Option<Value>)
      requires historyLifecycleBytes <= engine.LifecycleCap()
      modifies `historyLifecycleBytes
      ensures rest == match StripFrame(engine, frame) case None => None case Some(s) => Some(s.rest)
      ensures rest.Some? ==> Saturating(engine.LifecycleCap(), historyLifecycleBytes) == Saturating(engine.LifecycleCap(), old(historyLifecycleBytes) + StripFrame(engine, frame).value.moved)
    {
      hide StripItem, StripItems, StripPayload, CostOf, Set, Get;
      if Get(frame, "params") == None || !Get(frame, "params").value.Obj? { return Some(frame); }
      var params, m := Get(frame, "params").value, MethodOf(frame);
      if m == "item/tool/call" {
        var s := StripPayload(engine, params);
        Move(s.moved);
        params := s.rest;
      } else if m in {"item/started", "item/completed"} {
        var item := Get(params, "item");
        if item.Some? {
          var s := StripItem(engine, item.value);
          if s == None { return None; }
          Move(s.value.moved);
          params := Set(params, "item", s.value.rest);
        }
      } else if m in {"turn/started", "turn/completed"} && HasTurnItems(params) {
        var turn := Get(params, "turn").value;
        var items := CountItems(Get(turn, "items").value.items);
        if items == None { return None; }
        params := Set(params, "turn", Set(turn, "items", Arr(items.value)));
      }
      rest := Some(Set(frame, "params", params));
    }

    /** Count one frame. Saturation only ever means refusal. */
    method CountFrame(frame: Value) returns (ok: bool)
      requires historyLifecycleBytes <= engine.LifecycleCap() && eventBytes <= engine.EventCap()
      modifies `historyLifecycleBytes, `eventBytes
      ensures ok <==> CountOne(engine, Counted(old(eventBytes), old(historyLifecycleBytes)), frame).Some?
      ensures ok ==> Counted(eventBytes, historyLifecycleBytes) == CountOne(engine, Counted(old(eventBytes), old(historyLifecycleBytes)), frame).value
      ensures var (s, wide) := (StripFrame(engine, frame), engine.configured && !engine.community);
              ok <==> s.Some? && old(historyLifecycleBytes) + s.value.moved <= (if wide then 67108864 else 2097152)
                              && old(eventBytes) + Bytes(s.value.rest) <= if wide then 2097152 else 262144
    {
      hide StripFrame, CostOf;
      var ordinary := Strip(frame);
      if ordinary == None { return false; }
      eventBytes := Saturating(engine.EventCap(), eventBytes + Bytes(ordinary.value));
      ok := historyLifecycleBytes <= engine.LifecycleCap() && eventBytes <= engine.EventCap();
    }
  }

  lemma {:induction false} Unstrippable(e: Engine, items: seq<Value>, i: nat)
    requires i < |items| && StripItem(e, items[i]) == None
    ensures StripItems(e, items) == None
    decreases |items|
  {
    hide StripItem;
    if i < |items| - 1 { Unstrippable(e, items[..|items| - 1], i); }
  }
}
