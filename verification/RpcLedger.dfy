/** The two histories a model connection keeps: which frames arrived, in what order they were
    handed out, and which of the peer's requests have been answered. */
module RpcLedger {
  import opened Wrappers
  import opened Sets
  import L = Lines

  type byte = L.byte

  datatype Id = Number(n: int) | Text(s: string)

  datatype Frame =
    | Request(id: Id, body: string)
    | Notification(body: string)
    | Response(id: Id, body: string, failed: bool)
  {
    /** Anything but a response carries a method. */
    predicate Method?() { !Response? }
  }

  /** A decoded frame and the length of its line. */
  datatype Held = Held(frame: Frame, size: nat)

  type Decoder = seq<byte> -> Option<Frame>

  function Bytes(s: seq<Held>): nat {
    if s == [] then 0 else Bytes(s[..|s| - 1]) + s[|s| - 1].size
  }

  /** The frames that carry a method, in order. */
  function Methods(s: seq<Held>): (r: seq<Held>) {
    if s == [] then [] else Methods(s[..|s| - 1]) + (if s[|s| - 1].frame.Method?() then [s[|s| - 1]] else [])
  }

  /** The responses, in order. */
  function Responses(s: seq<Held>): (r: seq<Held>) {
    if s == [] then [] else Responses(s[..|s| - 1]) + (if s[|s| - 1].frame.Method?() then [] else [s[|s| - 1]])
  }

  lemma {:induction false} Concat(a: seq<Held>, b: seq<Held>)
    ensures Methods(a + b) == Methods(a) + Methods(b)
    ensures Responses(a + b) == Responses(a) + Responses(b)
    ensures Bytes(a + b) == Bytes(a) + Bytes(b)
    decreases |b|
  {
    if b == [] {
      assert a + b == a;
    } else {
      var n := |b| - 1;
      Concat(a, b[..n]);
      assert (a + b)[..|a + b| - 1] == a + b[..n];
    }
  }

  lemma {:induction false} AllMethods(s: seq<Held>)
    requires forall i :: 0 <= i < |s| ==> s[i].frame.Method?()
    ensures Methods(s) == s && Responses(s) == []
  {
    if s != [] { AllMethods(s[..|s| - 1]); }
  }

  lemma Single(h: Held)
    ensures Methods([h]) == (if h.frame.Method?() then [h] else [])
    ensures Responses([h]) == (if h.frame.Method?() then [] else [h])
    ensures Bytes([h]) == h.size
  {
    assert [h][..0] == [];
  }

  // ---------- arrival order

  /** Frames are handed out in arrival order and none is lost or repeated: what was handed
      out, then what is held, is what arrived. */
  predicate InOrder(arrivals: seq<Held>, delivered: seq<Held>, taken: seq<Held>, held: seq<Held>) {
    && Methods(arrivals) == delivered + Methods(held)
    && Responses(arrivals) == taken + Responses(held)
  }

  lemma Arrive(arrivals: seq<Held>, delivered: seq<Held>, taken: seq<Held>, held: seq<Held>, h: Held)
    requires InOrder(arrivals, delivered, taken, held)
    ensures InOrder(arrivals + [h], delivered, taken, held + [h])
  {
    Concat(arrivals, [h]);
    Concat(held, [h]);
    Regroup(delivered, Methods(held), Methods([h]));
    Regroup(taken, Responses(held), Responses([h]));
  }

  lemma Regroup(a: seq<Held>, b: seq<Held>, c: seq<Held>)
    ensures a + b + c == a + (b + c)
  {
  }

  lemma Deliver(arrivals: seq<Held>, delivered: seq<Held>, taken: seq<Held>, held: seq<Held>)
    requires held != [] && held[0].frame.Method?() && InOrder(arrivals, delivered, taken, held)
    ensures InOrder(arrivals, delivered + [held[0]], taken, held[1..])
  {
    assert held == [held[0]] + held[1..];
    Concat([held[0]], held[1..]);
    Single(held[0]);
    Regroup(delivered, [held[0]], Methods(held[1..]));
  }

  /** Taking the first response past the methods before it; the methods keep their place. */
  lemma Take(arrivals: seq<Held>, delivered: seq<Held>, taken: seq<Held>, before: seq<Held>, h: Held, after: seq<Held>)
    requires forall i :: 0 <= i < |before| ==> before[i].frame.Method?()
    requires !h.frame.Method?()
    requires InOrder(arrivals, delivered, taken, before + [h] + after)
    ensures InOrder(arrivals, delivered, taken + [h], before + after)
  {
    Concat(before + [h], after);
    Concat(before, [h]);
    Concat(before, after);
    AllMethods(before);
    Single(h);
    assert Methods(before) + [] == Methods(before);
    assert [] + Responses(after) == Responses(after);
    assert [] + [h] + Responses(after) == [h] + Responses(after);
    Regroup(taken, [h], Responses(after));
  }

  /** Every byte of every line is accounted for. */
  lemma {:induction false} BytesKept(s: seq<Held>)
    ensures Bytes(s) == Bytes(Methods(s)) + Bytes(Responses(s))
  {
    if s != [] {
      var n := |s| - 1;
      BytesKept(s[..n]);
      Single(s[n]);
      Concat(Methods(s[..n]), Methods([s[n]]));
      Concat(Responses(s[..n]), Responses([s[n]]));
      if s[n].frame.Method?() {
        assert Responses(s[..n]) + [] == Responses(s[..n]);
      } else {
        assert Methods(s[..n]) + [] == Methods(s[..n]);
      }
    }
  }

  // ---------- what a stream of bytes decodes to

  /** The lines of a stream, and the frame of each. */
  predicate Decoded(decode: Decoder, lines: seq<seq<byte>>, arrivals: seq<Held>) {
    && L.AllLines(lines) && |lines| == |arrivals|
    && forall i :: 0 <= i < |lines| ==> decode(lines[i]) == Some(arrivals[i].frame) && arrivals[i].size == |lines[i]|
  }

  lemma {:induction false} LineBytes(decode: Decoder, lines: seq<seq<byte>>, arrivals: seq<Held>)
    requires Decoded(decode, lines, arrivals)
    ensures |L.Joined(lines)| == Bytes(arrivals)
    decreases |lines|
  {
    if lines != [] {
      var n := |lines| - 1;
      LineBytes(decode, lines[..n], arrivals[..n]);
      L.JoinedMore(lines[..n], lines[n]);
      assert lines == lines[..n] + [lines[n]];
    }
  }

  /** What one side has made of the stream it was fed. */
  datatype History = History(lines: seq<seq<byte>>, rest: seq<byte>, arrivals: seq<Held>,
                             delivered: seq<Held>, taken: seq<Held>, held: seq<Held>)
  {
    predicate Of(decode: Decoder, fed: seq<byte>) {
      && Decoded(decode, lines, arrivals)
      && fed == L.Joined(lines) + rest
      && InOrder(arrivals, delivered, taken, held)
    }
  }

  /** Two runs over the same bytes, however those were cut into reads and however calls were
      interleaved, hand out the same frames in the same order, as far as each has come. */
  lemma CutIndependent(decode: Decoder, fed: seq<byte>, a: History, b: History)
    requires a.Of(decode, fed) && b.Of(decode, fed) && L.LF !in a.rest && L.LF !in b.rest
    ensures a.arrivals == b.arrivals && a.rest == b.rest
    ensures a.delivered + Methods(a.held) == b.delivered + Methods(b.held)
    ensures a.taken + Responses(a.held) == b.taken + Responses(b.held)
    ensures a.delivered <= b.delivered || b.delivered <= a.delivered
  {
    L.OneReading(a.lines, a.rest, b.lines, b.rest);
    forall i | 0 <= i < |a.arrivals| ensures a.arrivals[i] == b.arrivals[i] {
      assert decode(a.lines[i]) == decode(b.lines[i]);
    }
    assert a.arrivals == b.arrivals;
    var all := Methods(a.arrivals);
    assert a.delivered == all[..|a.delivered|];
    assert b.delivered == all[..|b.delivered|];
  }

  /** Nothing read is lost: delivered, taken, held and unfinished bytes are all there is. */
  lemma BytesConserved(decode: Decoder, fed: seq<byte>, h: History)
    requires h.Of(decode, fed)
    ensures |fed| == Bytes(h.delivered) + Bytes(h.taken) + Bytes(h.held) + |h.rest|
  {
    LineBytes(decode, h.lines, h.arrivals);
    BytesKept(h.arrivals);
    BytesKept(h.held);
    Concat(h.delivered, Methods(h.held));
    Concat(h.taken, Responses(h.held));
  }

  // ---------- the peer's requests

  datatype Stage = Queued | Delivered | Responding

  function Ids(s: seq<Held>): set<Id> {
    set i | 0 <= i < |s| && s[i].frame.Request? :: s[i].frame.id
  }

  predicate DistinctIds(s: seq<Held>) {
    forall i, j :: 0 <= i < j < |s| && s[i].frame.Request? && s[j].frame.Request? ==> s[i].frame.id != s[j].frame.id
  }

  /** Seen requests are the pending ones and the answered ones, each once; a request is
      queued exactly while its frame is held, and answered only after it was delivered. */
  ghost predicate Ledger(seen: set<Id>, pending: map<Id, Stage>, answered: seq<Id>, delivered: seq<Held>, held: seq<Held>) {
    && seen == pending.Keys + Elements(answered)
    && pending.Keys !! Elements(answered) && NoRepeats(answered)
    && DistinctIds(held)
    && (forall id :: id in Ids(held) <==> id in pending && pending[id] == Queued)
    && (forall id :: id in Ids(delivered) <==> (id in pending && pending[id] != Queued) || id in answered)
  }

  lemma IdsMore(s: seq<Held>, h: Held)
    ensures Ids(s + [h]) == Ids(s) + (if h.frame.Request? then {h.frame.id} else {})
  {
    var all := s + [h];
    assert all[|s|] == h;
    forall id | id in Ids(s) ensures id in Ids(all) {
      var i :| 0 <= i < |s| && s[i].frame.Request? && s[i].frame.id == id;
      assert all[i] == s[i];
    }
  }

  lemma IdsFirst(s: seq<Held>)
    requires s != []
    ensures Ids(s) == Ids(s[1..]) + (if s[0].frame.Request? then {s[0].frame.id} else {})
    ensures DistinctIds(s) ==> DistinctIds(s[1..])
    ensures DistinctIds(s) && s[0].frame.Request? ==> s[0].frame.id !in Ids(s[1..])
  {
    forall id | id in Ids(s) && !(s[0].frame.Request? && s[0].frame.id == id) ensures id in Ids(s[1..]) {
      var i :| 0 <= i < |s| && s[i].frame.Request? && s[i].frame.id == id;
      assert s[1..][i - 1] == s[i];
    }
    forall id | id in Ids(s[1..]) ensures id in Ids(s) {
      var i :| 0 <= i < |s| - 1 && s[1..][i].frame.Request? && s[1..][i].frame.id == id;
      assert s[i + 1] == s[1..][i];
    }
  }

  /** Two parts of what is held swap places with nothing between them. */
  lemma IdsWithout(before: seq<Held>, h: Held, after: seq<Held>)
    requires !h.frame.Request?
    ensures Ids(before + [h] + after) == Ids(before + after)
    ensures DistinctIds(before + [h] + after) ==> DistinctIds(before + after)
  {
    var a, b, n := before + [h] + after, before + after, |before|;
    assert forall i :: 0 <= i < |b| ==> b[i] == a[if i < n then i else i + 1];
    assert forall i :: 0 <= i < |a| && i != n ==> a[i] == b[if i < n then i else i - 1];
  }

  /** A request the peer has not used before is queued. */
  lemma LedgerArrive(seen: set<Id>, pending: map<Id, Stage>, answered: seq<Id>, delivered: seq<Held>, held: seq<Held>, h: Held)
    requires Ledger(seen, pending, answered, delivered, held)
    requires h.frame.Request? ==> h.frame.id !in seen
    ensures var id := h.frame;
            Ledger(if id.Request? then seen + {id.id} else seen, if id.Request? then pending[id.id := Queued] else pending, answered, delivered, held + [h])
  {
    IdsMore(held, h);
    assert forall i :: 0 <= i < |held| && held[i].frame.Request? ==> held[i].frame.id in Ids(held);
  }

  /** A queued request is handed out. */
  lemma LedgerDeliver(seen: set<Id>, pending: map<Id, Stage>, answered: seq<Id>, delivered: seq<Held>, held: seq<Held>)
    requires held != [] && Ledger(seen, pending, answered, delivered, held)
    ensures held[0].frame.Request? ==> held[0].frame.id in pending && pending[held[0].frame.id] == Queued
    ensures var f := held[0].frame;
            Ledger(seen, if f.Request? then pending[f.id := Delivered] else pending, answered, delivered + [held[0]], held[1..])
  {
    IdsFirst(held);
    IdsMore(delivered, held[0]);
  }

  /** Taking a response from what is held does not touch the ledger. */
  lemma LedgerTake(seen: set<Id>, pending: map<Id, Stage>, answered: seq<Id>, delivered: seq<Held>,
                   before: seq<Held>, h: Held, after: seq<Held>)
    requires !h.frame.Request? && Ledger(seen, pending, answered, delivered, before + [h] + after)
    ensures Ledger(seen, pending, answered, delivered, before + after)
  {
    IdsWithout(before, h, after);
  }

  /** A delivered request is being answered. */
  lemma LedgerRespond(seen: set<Id>, pending: map<Id, Stage>, answered: seq<Id>, delivered: seq<Held>, held: seq<Held>, id: Id)
    requires Ledger(seen, pending, answered, delivered, held) && id in pending && pending[id] == Delivered
    ensures Ledger(seen, pending[id := Responding], answered, delivered, held)
  {
  }

  /** A request that was being answered has been. */
  lemma LedgerAnswer(seen: set<Id>, pending: map<Id, Stage>, answered: seq<Id>, delivered: seq<Held>, held: seq<Held>, id: Id)
    requires Ledger(seen, pending, answered, delivered, held) && id in pending && pending[id] == Responding
    ensures Ledger(seen, pending - {id}, answered + [id], delivered, held)
  {
    assert forall x :: x in Elements(answered + [id]) <==> x in Elements(answered) || x == id;
  }

  /** The number of requests seen is the number pending and the number answered. */
  lemma LedgerCount(seen: set<Id>, pending: map<Id, Stage>, answered: seq<Id>, delivered: seq<Held>, held: seq<Held>)
    requires Ledger(seen, pending, answered, delivered, held)
    ensures |seen| == |pending| + |answered|
    ensures forall id :: id in answered ==> id in Ids(delivered) && id !in Ids(held)
  {
    ElementCount(answered);
  }
}
