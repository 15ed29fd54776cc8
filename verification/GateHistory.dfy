/** What the acceptor accepts, told by the lines alone: which line may follow which earlier ones, without
    anything a gate remembers. */
module GateHistory {
  import opened Vocabulary
  import opened Wrappers
  import opened OutputGate

  // ---------- one worker's words

  /** What an earlier word may be looked up for. */
  datatype Mark =
    | Announced
    | Listing(name: string)
    | Turned
    | TurnOf(ref: string)
    | TurnNotOf(ref: string)
    | Scoping
    | ScopeIs(scope: Scope)
    | Answered
    | AnswerTo(ref: string)
    | Declined
    | Over
    | OverWith(code: Code)

  /** The request a word speaks of as its turn. */
  function TurnRef(f: Inner): Option<string> {
    match f
    case Tool(_, ref, _, _) => Some(ref)
    case Scoped(scope) => Some(scope.requestRef)
    case Completed(scope, _) => Some(scope.requestRef)
    case _ => None
  }

  predicate Is(f: Inner, k: Mark) {
    match k
    case Announced => f.Ready?
    case Listing(name) => f.Ready? && name in f.tools
    case Turned => TurnRef(f).Some?
    case TurnOf(ref) => TurnRef(f) == Some(ref)
    case TurnNotOf(ref) => TurnRef(f).Some? && TurnRef(f) != Some(ref)
    case Scoping => f.Scoped?
    case ScopeIs(scope) => f == Scoped(scope)
    case Answered => f.Completed?
    case AnswerTo(ref) => f.Completed? && f.scope.requestRef == ref
    case Declined => f.NotAdmitted?
    case Over => f.Ended?
    case OverWith(code) => f.Ended? && f.code == code
  }

  predicate Ever(s: seq<Inner>, k: Mark) {
    exists i :: 0 <= i < |s| && Is(s[i], k)
  }

  /** Since the last release. */
  predicate Lately(s: seq<Inner>, k: Mark) {
    exists i :: 0 <= i < |s| && Is(s[i], k) && forall j :: i < j < |s| ==> !s[j].Released?
  }

  /** The tools a worker of each purpose announces. */
  predicate Announces(checks: Checks, purpose: Purpose, tools: seq<string>) {
    match purpose
    case Conversation =>
      && 1 <= |tools| <= 32 && tools[0] == "neurobro_read_history"
      && (forall i :: 0 <= i < |tools| ==> checks.toolName(tools[i])) && forall i, j :: 0 <= i < j < |tools| ==> tools[i] != tools[j]
    case HistoryAnalysis =>
      |tools| == 3 && tools[0] == "neurobro_analysis_material" && tools[1] == "neurobro_analysis_notes" && tools[2] == "neurobro_analysis_commit"
    case CommunityAssessment => |tools| == 0
  }

  /** What a worker of this purpose may say next. A tool call names a tool it announced; a turn has one scope
      and one answer, which carries that scope; a release belongs to the answer; nothing follows its end. */
  predicate May(checks: Checks, purpose: Purpose, s: seq<Inner>, f: Inner) {
    && !Ever(s, Over)
    && (f.Ready? <==> !Ever(s, Announced))
    && match f
       case Ready(p, tools) => p == purpose && Announces(checks, p, tools)
       case Tool(p, ref, callRef, name) =>
         && p == purpose && p != CommunityAssessment && checks.identifier(ref) && checks.identifier(callRef) && Ever(s, Listing(name))
         && !Lately(s, TurnNotOf(ref)) && !Lately(s, Answered) && !Ever(s, Declined)
       case Scoped(scope) =>
         && scope.purpose == purpose && checks.identifier(scope.requestRef) && checks.identifier(scope.threadId)
         && checks.identifier(scope.turnId) && 1 <= scope.turnNumber <= 16
         && !Lately(s, TurnNotOf(scope.requestRef)) && !Lately(s, Scoping) && !Ever(s, Declined)
       case Image(_) => purpose == Conversation && Lately(s, Scoping) && !Lately(s, Answered)
       case Completed(scope, answer) =>
         && Lately(s, ScopeIs(scope)) && !Lately(s, Answered) && !Ever(s, Declined)
         && checks.answer(answer.text) && 0 <= answer.toolCalls <= 8 && 0 <= answer.toolRefusals <= 4
         && (answer.image ==> purpose == Conversation)
       case Released(p, ref, delivery) => p == purpose && Lately(s, AnswerTo(ref)) && (delivery != NotSent ==> purpose == Conversation)
       case NotAdmitted(p, ref, _, turns) => p == purpose && checks.identifier(ref) && !Lately(s, Turned) && 0 <= turns <= 16
       case Ended(_, facts) => 0 <= facts.turnsAttempted <= 16 && 0 <= facts.turnsAdmitted <= 16 && 0 <= facts.toolCalls <= 193
  }

  lemma More(s: seq<Inner>, f: Inner)
    ensures forall k :: Ever(s + [f], k) <==> Ever(s, k) || Is(f, k)
    ensures forall k :: Lately(s + [f], k) <==> Is(f, k) || (!f.Released? && Lately(s, k))
  {
    hide Is;
    forall k
      ensures Ever(s + [f], k) <==> Ever(s, k) || Is(f, k)
      ensures Lately(s + [f], k) <==> Is(f, k) || (!f.Released? && Lately(s, k))
    {
      OneMore(s, f, k);
    }
  }

  lemma EverOne(s: seq<Inner>, f: Inner, k: Mark)
    ensures Ever(s + [f], k) <==> Ever(s, k) || Is(f, k)
  {
    hide Is;
    var t := s + [f];
    assert t[|s|] == f && forall i :: 0 <= i < |s| ==> t[i] == s[i];
    if Ever(s, k) {
      var i :| 0 <= i < |s| && Is(s[i], k);
      assert Is(t[i], k);
    }
  }

  lemma OneMore(s: seq<Inner>, f: Inner, k: Mark)
    ensures Ever(s + [f], k) <==> Ever(s, k) || Is(f, k)
    ensures Lately(s + [f], k) <==> Is(f, k) || (!f.Released? && Lately(s, k))
  {
    hide Is, Ever;
    var t := s + [f];
    assert t[|s|] == f && forall i :: 0 <= i < |s| ==> t[i] == s[i];
    EverOne(s, f, k);
    if Lately(s, k) && !f.Released? {
      var i :| 0 <= i < |s| && Is(s[i], k) && forall j :: i < j < |s| ==> !s[j].Released?;
      assert Is(t[i], k);
    }
    if Lately(t, k) && !Is(f, k) {
      var i :| 0 <= i < |t| && Is(t[i], k) && forall j :: i < j < |t| ==> !t[j].Released?;
      assert Is(s[i], k) && !t[|s|].Released?;
    }
  }

  /** What a gate remembers of a worker is what its words say. */
  ghost predicate Told(checks: Checks, m: Member, purpose: Purpose, s: seq<Inner>) {
    && m.purpose == purpose && (m.ready <==> Ever(s, Announced))
    && (forall name :: name in m.tools <==> Ever(s, Listing(name)))
    && TurnTold(m, s)
    && (m.retired <==> Ever(s, Declined)) && (m.closed.Some? <==> Ever(s, Over))
    && (forall code :: Ever(s, OverWith(code)) <==> m.closed.Some? && m.closed.value.0 == code)
    && (!m.ready ==> m.tools == [] && m.active == None && !m.retired && m.closed == None)
    && (m.active.Some? ==> checks.identifier(m.active.value))
    && (m.scope.Some? ==> ScopeOk(checks, m, m.scope.value))
  }

  ghost predicate TurnTold(m: Member, s: seq<Inner>) {
    && (m.active.Some? <==> Lately(s, Turned))
    && (forall ref :: Lately(s, TurnOf(ref)) <==> m.active == Some(ref))
    && (forall ref :: Lately(s, TurnNotOf(ref)) <==> m.active.Some? && m.active != Some(ref))
    && (m.scope.Some? <==> Lately(s, Scoping))
    && (forall scope :: Lately(s, ScopeIs(scope)) <==> m.scope == Some(scope))
    && (m.completed <==> Lately(s, Answered))
    && (forall ref :: Lately(s, AnswerTo(ref)) <==> m.completed && m.active == Some(ref))
    && (m.scope.Some? ==> m.active == Some(m.scope.value.requestRef))
    && (m.completed ==> m.scope.Some?)
  }

  lemma ToldFirst(checks: Checks, purpose: Purpose)
    ensures Told(checks, NewMember(purpose), purpose, [])
  {
  }

  lemma AnnouncesTools(checks: Checks, purpose: Purpose, tools: seq<string>)
    ensures Announces(checks, purpose, tools) <==> checks.Tools(purpose, tools)
  {
  }

  /** A worker's automaton takes exactly what the worker may say. */
  lemma {:induction false} StepTold(checks: Checks, m: Member, purpose: Purpose, s: seq<Inner>, f: Inner)
    requires Told(checks, m, purpose, s)
    ensures MemberStep(checks, m, f).Some? <==> May(checks, purpose, s, f)
    ensures MemberStep(checks, m, f).Some? ==> Told(checks, MemberStep(checks, m, f).value, purpose, s + [f])
  {
    hide Ever, Lately, Announces, Checks.Tools;
    StepTaken(checks, m, purpose, s, f);
    More(s, f);
    if MemberStep(checks, m, f).Some? { TurnFollows(checks, m, s, f); }
    hide TurnTold;
  }

  lemma {:induction false} StepTaken(checks: Checks, m: Member, purpose: Purpose, s: seq<Inner>, f: Inner)
    requires Told(checks, m, purpose, s)
    ensures MemberStep(checks, m, f).Some? <==> May(checks, purpose, s, f)
  {
    hide Ever, Lately, Announces, Checks.Tools;
    if f.Ready? { AnnouncesTools(checks, purpose, f.tools); }
  }

  lemma {:induction false} TurnFollows(checks: Checks, m: Member, s: seq<Inner>, f: Inner)
    requires TurnTold(m, s) && MemberStep(checks, m, f).Some?
    ensures TurnTold(MemberStep(checks, m, f).value, s + [f])
  {
    hide Ever, Lately, Checks.Tools, ScopeOk, FactsOk;
    More(s, f);
  }

  // ---------- the lines of the whole pool

  type Lines = seq<(Outer, nat)>

  type Crew = seq<(string, Purpose)>

  datatype Sign = Custodies | CustodyOf(crew: Crew) | Opens | OpensWith(crew: Crew) | Closes | Results

  predicate Shows(f: Outer, k: Sign) {
    match k
    case Custodies => f.Custody?
    case CustodyOf(crew) => f == Custody(crew)
    case Opens => f.PoolReady?
    case OpensWith(crew) => f == PoolReady(crew)
    case Closes => f.PoolClosed?
    case Results => f.EpochResult?
  }

  predicate Seen(lines: Lines, k: Sign) {
    exists i :: 0 <= i < |lines| && Shows(lines[i].0, k)
  }

  /** What one worker has said, in order. */
  function Words(lines: Lines, id: string): seq<Inner> {
    if lines == [] then []
    else
      var f := lines[|lines| - 1].0;
      Words(lines[..|lines| - 1], id) + if f.Worker? && f.id == id then [f.frame] else []
  }

  function ControlBytes(lines: Lines): nat {
    if lines == [] then 0
    else
      var (f, n) := lines[|lines| - 1];
      ControlBytes(lines[..|lines| - 1]) + if f.Custody? || f.PoolClosed? || f.EpochResult? then n else 0
  }

  function InnerBytes(lines: Lines): nat {
    if lines == [] then 0
    else
      var (f, n) := lines[|lines| - 1];
      InnerBytes(lines[..|lines| - 1]) + if f.PoolReady? || f.Worker? then n else 0
  }

  function Count(crew: Crew, p: Purpose): nat {
    if crew == [] then 0 else Count(crew[1..], p) + if crew[0].1 == p then 1 else 0
  }

  /** Two to eight workers of different names: one for the conversation, at least one for analysis, at most
      one for assessment. */
  predicate Manned(crew: Crew) {
    && 2 <= |crew| <= 8 && (forall i, j :: 0 <= i < j < |crew| ==> crew[i].0 != crew[j].0)
    && Count(crew, Conversation) == 1 && Count(crew, HistoryAnalysis) >= 1 && Count(crew, CommunityAssessment) <= 1
  }

  /** The pool that was opened has this worker, for this purpose. */
  predicate Aboard(lines: Lines, id: string, p: Purpose) {
    exists i, j :: 0 <= i < |lines| && lines[i].0.PoolReady? && 0 <= j < |lines[i].0.workers| && lines[i].0.workers[j] == (id, p)
  }

  /** What may follow these lines: the custody once, then the pool it named, then its workers, each by its own
      rules, then the pool's end, once every worker has ended with the same code; and after the result nothing. */
  ghost predicate Permitted(checks: Checks, lines: Lines, f: Outer) {
    && !Seen(lines, Results)
    && match f
       case Custody(crew) => !Seen(lines, Custodies) && !Seen(lines, Closes) && Manned(crew)
       case PoolReady(crew) => Seen(lines, CustodyOf(crew)) && !Seen(lines, Opens) && !Seen(lines, Closes)
       case Worker(id, word) =>
         && checks.identifier(id) && !Seen(lines, Closes)
         && exists p: Purpose :: Aboard(lines, id, p) && May(checks, p, Words(lines, id), word)
       case PoolClosed(code, receiptOk) =>
         && receiptOk && !Seen(lines, Closes)
         && forall id: string, p: Purpose :: Aboard(lines, id, p) ==> Ever(Words(lines, id), OverWith(code))
       case EpochResult(receiptOk) => receiptOk
  }

  /** At most 1024 lines, 64 KiB of control lines and 512 MiB of others, and each line permitted by those before it. */
  ghost predicate Acceptable(checks: Checks, lines: Lines) {
    && |lines| <= 1024 && ControlBytes(lines) <= 65536 && InnerBytes(lines) <= 536870912
    && forall i :: 0 <= i < |lines| ==> Permitted(checks, lines[..i], lines[i].0)
  }

  lemma {:induction false} CountBack(crew: Crew, p: Purpose)
    ensures Count(crew, p) == 0 <==> forall i :: 0 <= i < |crew| ==> crew[i].1 != p
    ensures Count(crew, p) <= 1 <==> forall i, j :: 0 <= i < j < |crew| ==> !(crew[i].1 == p && crew[j].1 == p)
  {
    if crew != [] {
      CountBack(crew[1..], p);
      assert crew == [crew[0]] + crew[1..];
      assert forall i :: 0 <= i < |crew| - 1 ==> crew[1..][i] == crew[i + 1];
    }
  }

  lemma MannedIff(crew: Crew)
    ensures Manned(crew) <==> Population(crew)
  {
    hide Count;
    CountBack(crew, Conversation);
    CountBack(crew, HistoryAnalysis);
    CountBack(crew, CommunityAssessment);
  }

  lemma SeenMore(lines: Lines, f: Outer, n: nat)
    ensures forall k :: Seen(lines + [(f, n)], k) <==> Seen(lines, k) || Shows(f, k)
    ensures forall id :: Words(lines + [(f, n)], id) == if f.Worker? && f.id == id then Words(lines, id) + [f.frame] else Words(lines, id)
    ensures ControlBytes(lines + [(f, n)]) == ControlBytes(lines) + if f.Control?() then n else 0
    ensures InnerBytes(lines + [(f, n)]) == InnerBytes(lines) + if f.Control?() then 0 else n
  {
    hide Shows;
    var more := lines + [(f, n)];
    assert more[..|lines|] == lines && more[|lines|] == (f, n);
    forall k ensures Seen(more, k) <==> Seen(lines, k) || Shows(f, k) {
      if Seen(lines, k) {
        var i :| 0 <= i < |lines| && Shows(lines[i].0, k);
        assert Shows(more[i].0, k);
      }
    }
  }

  /** What a gate remembers is what the lines say. */
  ghost predicate GateTold(checks: Checks, g: Gate, lines: Lines) {
    && g.frames == |lines| <= 1024 && g.controlBytes == ControlBytes(lines) <= 65536 && g.innerBytes == InnerBytes(lines) <= 536870912
    && (g.custody.Some? <==> Seen(lines, Custodies)) && (forall crew :: Seen(lines, CustodyOf(crew)) <==> g.custody == Some(crew))
    && (g.ready <==> Seen(lines, Opens)) && (forall crew :: Seen(lines, OpensWith(crew)) <==> g.ready && g.custody == Some(crew))
    && (g.closed <==> Seen(lines, Closes)) && (g.receipt <==> Seen(lines, Results))
    && (g.custody.Some? ==> Manned(g.custody.value)) && (g.ready ==> g.custody.Some?)
    && CrewTold(checks, g, lines)
  }

  ghost predicate CrewTold(checks: Checks, g: Gate, lines: Lines) {
    if g.ready && g.custody.Some? then
      && g.members.Keys == IdsOf(g.custody.value)
      && forall id :: id in g.members ==> Told(checks, g.members[id], PurposeOf(g.custody.value, id), Words(lines, id))
    else g.members == map[] && forall id :: Words(lines, id) == []
  }

  /** A gate takes a line exactly when the lines before it permit it and the caps hold. */
  lemma {:induction false} LineTold(checks: Checks, g: Gate, lines: Lines, f: Outer, n: nat)
    requires GateTold(checks, g, lines)
    ensures Accept(checks, g, f, n).Some? <==>
            && Permitted(checks, lines, f) && |lines| < 1024
            && ControlBytes(lines + [(f, n)]) <= 65536 && InnerBytes(lines + [(f, n)]) <= 536870912
    ensures Accept(checks, g, f, n).Some? ==> GateTold(checks, Accept(checks, g, f, n).value, lines + [(f, n)])
  {
    SeenMore(lines, f, n);
    hide Seen, Words, ControlBytes, InnerBytes, Manned, Population, MemberStep, May, Told, Aboard, Ever;
    match f {
      case Custody(crew) => MannedIff(crew);
      case PoolReady(crew) => if g.custody == Some(crew) { FreshTold(checks, crew); }
      case Worker(id, word) => WordTold(checks, g, lines, id, word);
      case PoolClosed(code, receiptOk) => EndTold(checks, g, lines, code);
      case EpochResult(receiptOk) =>
    }
  }

  lemma FreshTold(checks: Checks, crew: Crew)
    ensures forall id :: id in Fresh(crew) ==> Told(checks, Fresh(crew)[id], PurposeOf(crew, id), [])
  {
    hide Told;
    forall id | id in Fresh(crew) { ToldFirst(checks, PurposeOf(crew, id)); }
  }

  lemma AboardIff(checks: Checks, g: Gate, lines: Lines, id: string, p: Purpose)
    requires GateTold(checks, g, lines)
    ensures Aboard(lines, id, p) <==> g.ready && id in g.members && PurposeOf(g.custody.value, id) == p
  {
    hide Words, ControlBytes, InnerBytes, Told, Count;
    if Aboard(lines, id, p) {
      var i, j :| 0 <= i < |lines| && lines[i].0.PoolReady? && 0 <= j < |lines[i].0.workers| && lines[i].0.workers[j] == (id, p);
      assert Shows(lines[i].0, OpensWith(lines[i].0.workers));
      PurposeAt(g.custody.value, j);
    }
    if g.ready && id in g.members && PurposeOf(g.custody.value, id) == p {
      var crew := g.custody.value;
      assert Seen(lines, OpensWith(crew));
      var i :| 0 <= i < |lines| && Shows(lines[i].0, OpensWith(crew));
      var j :| 0 <= j < |crew| && crew[j].0 == id;
      PurposeAt(crew, j);
      assert lines[i].0.workers[j] == (id, p);
    }
  }

  /** Whether a listed worker may say something is a question of its purpose and its own words. */
  lemma {:induction false} WordTold(checks: Checks, g: Gate, lines: Lines, id: string, word: Inner)
    requires GateTold(checks, g, lines)
    ensures (exists p: Purpose :: Aboard(lines, id, p) && May(checks, p, Words(lines, id), word)) <==>
            g.ready && id in g.members && MemberStep(checks, g.members[id], word).Some?
    ensures g.ready && id in g.members && MemberStep(checks, g.members[id], word).Some? ==>
              Told(checks, MemberStep(checks, g.members[id], word).value, PurposeOf(g.custody.value, id), Words(lines, id) + [word])
  {
    hide Words, ControlBytes, InnerBytes, MemberStep, May, Told, Count, Aboard, Seen, Manned;
    forall p: Purpose { AboardIff(checks, g, lines, id, p); }
    if g.ready && id in g.members {
      StepTold(checks, g.members[id], PurposeOf(g.custody.value, id), Words(lines, id), word);
      assert Aboard(lines, id, PurposeOf(g.custody.value, id));
    }
  }

  lemma {:induction false} EndTold(checks: Checks, g: Gate, lines: Lines, code: Code)
    requires GateTold(checks, g, lines)
    ensures AllEnded(g.members, code) <==> forall id: string, p: Purpose :: Aboard(lines, id, p) ==> Ever(Words(lines, id), OverWith(code))
  {
    hide Words, ControlBytes, InnerBytes, Count, Aboard, Seen, Manned, Ever;
    forall id: string, p: Purpose { AboardIff(checks, g, lines, id, p); }
    forall id | id in g.members ensures Ever(Words(lines, id), OverWith(code)) <==> g.members[id].closed.Some? && g.members[id].closed.value.0 == code {
      assert Told(checks, g.members[id], PurposeOf(g.custody.value, id), Words(lines, id));
    }
    if forall id: string, p: Purpose :: Aboard(lines, id, p) ==> Ever(Words(lines, id), OverWith(code)) {
      forall id | id in g.members ensures g.members[id].closed.Some? && g.members[id].closed.value.0 == code {
        assert Aboard(lines, id, PurposeOf(g.custody.value, id));
      }
    }
  }

  /** The acceptor takes a run of lines exactly when each line is permitted by those before it and the caps hold. */
  lemma {:induction false} RunIff(checks: Checks, lines: Lines)
    ensures Run(checks, START, lines).Some? <==> Acceptable(checks, lines)
    ensures Run(checks, START, lines).Some? ==> GateTold(checks, Run(checks, START, lines).value, lines)
    decreases |lines|
  {
    hide Permitted, GateTold, Accept, ControlBytes, InnerBytes;
    if lines == [] {
      NoLines(checks);
    } else {
      var n := |lines| - 1;
      var (f, length) := lines[n];
      RunIff(checks, lines[..n]);
      assert lines == lines[..n] + [(f, length)];
      LessAcceptable(checks, lines, n);
      if Run(checks, START, lines[..n]).Some? { LineTold(checks, Run(checks, START, lines[..n]).value, lines[..n], f, length); }
    }
  }

  lemma NoLines(checks: Checks)
    ensures GateTold(checks, START, []) && Acceptable(checks, [])
  {
  }

  lemma LessAcceptable(checks: Checks, lines: Lines, n: nat)
    requires n == |lines| - 1
    ensures Acceptable(checks, lines) <==>
            && Acceptable(checks, lines[..n]) && Permitted(checks, lines[..n], lines[n].0)
            && |lines| <= 1024 && ControlBytes(lines) <= 65536 && InnerBytes(lines) <= 536870912
  {
    hide Permitted;
    assert forall i :: 0 <= i < n ==> lines[..n][..i] == lines[..i] && lines[..n][i] == lines[i];
    if Acceptable(checks, lines) {
      forall i | 0 <= i < n ensures Permitted(checks, lines[..n][..i], lines[..n][i].0) { assert Permitted(checks, lines[..i], lines[i].0); }
    }
    if Acceptable(checks, lines[..n]) && Permitted(checks, lines[..n], lines[n].0) {
      forall i | 0 <= i < |lines| ensures Permitted(checks, lines[..i], lines[i].0) {
        if i < n { assert Permitted(checks, lines[..n][..i], lines[..n][i].0); }
      }
    }
  }
}
