/** The dashboard's traffic log: a bounded ring with sequence numbers and the stream that follows it. */
module LogRing {
  import opened Prelude

  const LOG_CAPACITY := 100

  datatype Entry = Entry(number: nat, text: string)

  /** The entries of a history with numbers from `lo` up to `hi`. */
  function Entries(h: seq<string>, lo: nat, hi: nat): seq<Entry>
    requires lo <= hi <= |h|
  {
    seq(hi - lo, i requires 0 <= i < hi - lo => Entry(lo + i, h[lo + i]))
  }

  /** The number of the oldest entry the ring still holds. */
  function Oldest(h: seq<string>): nat {
    if |h| <= LOG_CAPACITY then 0 else |h| - LOG_CAPACITY
  }

  function Ring(h: seq<string>): seq<Entry> {
    Entries(h, Oldest(h), |h|)
  }

  /** The entries a filter keeps, in order. */
  function Since(log: seq<Entry>, from: nat): seq<Entry> {
    if log == [] then []
    else Since(log[..|log| - 1], from) + (if log[|log| - 1].number >= from then [log[|log| - 1]] else [])
  }

  function Max(a: nat, b: nat): nat {
    if a < b then b else a
  }

  lemma EntriesSplit(h: seq<string>, lo: nat, hi: nat)
    requires lo < hi <= |h|
    ensures Entries(h, lo, hi) == Entries(h, lo, hi - 1) + [Entry(hi - 1, h[hi - 1])]
  {}

  lemma SinceSplit(log: seq<Entry>, e: Entry, from: nat)
    ensures Since(log + [e], from) == Since(log, from) + (if e.number >= from then [e] else [])
  {
    assert (log + [e])[..|log|] == log;
  }

  lemma {:induction false} SinceOfEntries(h: seq<string>, lo: nat, hi: nat, from: nat)
    requires lo <= hi <= |h| && from <= hi
    ensures Since(Entries(h, lo, hi), from) == Entries(h, Max(lo, from), hi)
    decreases hi - lo
  {
    if lo < hi {
      var last := Entry(hi - 1, h[hi - 1]);
      EntriesSplit(h, lo, hi);
      SinceSplit(Entries(h, lo, hi - 1), last, from);
      if from < hi {
        SinceOfEntries(h, lo, hi - 1, from);
        EntriesSplit(h, Max(lo, from), hi);
      } else {
        NoneSince(Entries(h, lo, hi - 1), from);
      }
    }
  }

  lemma {:induction false} NoneSince(log: seq<Entry>, from: nat)
    requires forall e | e in log :: e.number < from
    ensures Since(log, from) == []
  {
    if log != [] {
      NoneSince(log[..|log| - 1], from);
      assert log[|log| - 1] in log;
    }
  }

  /** The log of the metrics object; `history` is everything ever pushed. */
  class Metrics {
    var log: seq<Entry>
    var logSeq: nat
    ghost var history: seq<string>

    ghost predicate Valid()
      reads this
    {
      logSeq == |history| && log == Ring(history)
    }

    constructor ()
      ensures Valid() && history == []
    {
      log, logSeq, history := [], 0, [];
    }

    /** Takes a number, evicts the oldest entry if the ring is full, appends. */
    method PushLog(text: string)
      requires Valid()
      modifies this
      ensures Valid() && history == old(history) + [text]
    {
      var entry := Entry(logSeq, text);
      logSeq := logSeq + 1;
      if |log| >= LOG_CAPACITY {
        log := log[1..];
      }
      log := log + [entry];
      history := history + [text];
    }

    method LogSince(from: Option<nat>) returns (entries: seq<Entry>)
      ensures entries == match from case None => log case Some(q) => Since(log, q)
    {
      if from.None? {
        return log;
      }
      entries := [];
      for i := 0 to |log|
        invariant entries == Since(log[..i], from.value)
      {
        assert log[..i + 1][..i] == log[..i];
        if log[i].number >= from.value {
          entries := entries + [log[i]];
        }
      }
      assert log[..|log|] == log;
    }
  }

  /** One dashboard stream; its cursor is the next number it has not seen. */
  class SseStream {
    var nextLogSeq: Option<nat>

    constructor ()
      ensures nextLogSeq == None
    {
      nextLogSeq := None;
    }

    /** One tick sends the entries between the cursor and now that the ring still holds. */
    method Tick(m: Metrics) returns (entries: seq<Entry>)
      requires m.Valid() && From(nextLogSeq) <= |m.history|
      modifies this
      ensures nextLogSeq == Some(|m.history|)
      ensures entries == Entries(m.history, Max(Oldest(m.history), From(old(nextLogSeq))), |m.history|)
    {
      entries := m.LogSince(nextLogSeq);
      RingSince(m.history, nextLogSeq);
      nextLogSeq := Some(if entries != [] then entries[|entries| - 1].number + 1 else From(nextLogSeq));
    }
  }

  function From(cursor: Option<nat>): nat {
    match cursor
    case None => 0
    case Some(q) => q
  }

  /** What the ring has for a cursor, and the number that follows it. */
  lemma RingSince(h: seq<string>, cursor: Option<nat>)
    requires From(cursor) <= |h|
    ensures
      var es := match cursor case None => Ring(h) case Some(q) => Since(Ring(h), q);
      && es == Entries(h, Max(Oldest(h), From(cursor)), |h|)
      && |h| == (if es != [] then es[|es| - 1].number + 1 else From(cursor))
  {
    SinceOfEntries(h, Oldest(h), |h|, From(cursor));
  }

  // ----- Whole runs of pushes and ticks -----

  datatype Op = Push(text: string) | Tick

  /** Everything pushed, the cursor, and all entries sent. */
  datatype View = View(history: seq<string>, cursor: nat, sent: seq<Entry>)

  function Start(): View {
    View([], 0, [])
  }

  function Step(v: View, op: Op): View
    requires v.cursor <= |v.history|
  {
    match op
    case Push(text) => v.(history := v.history + [text])
    case Tick =>
      var n := |v.history|;
      View(v.history, n, v.sent + Entries(v.history, Max(Oldest(v.history), v.cursor), n))
  }

  function After(v: View, ops: seq<Op>): (w: View)
    requires v.cursor <= |v.history|
    ensures w.cursor <= |w.history|
    decreases |ops|
  {
    if ops == [] then v else After(Step(v, ops[0]), ops[1..])
  }

  ghost predicate Increasing(es: seq<Entry>) {
    forall i, j | 0 <= i < j < |es| :: es[i].number < es[j].number
  }

  /** The sent entries are true to the history and in order. */
  ghost predicate InOrder(v: View) {
    && v.cursor <= |v.history|
    && (forall i | 0 <= i < |v.sent| ::
          v.sent[i].number < v.cursor && v.sent[i].text == v.history[v.sent[i].number])
    && Increasing(v.sent)
  }

  lemma StepKeepsOrder(v: View, op: Op)
    requires InOrder(v)
    ensures InOrder(Step(v, op))
  {
    if op.Tick? {
      var more := Entries(v.history, Max(Oldest(v.history), v.cursor), |v.history|);
      assert forall i | 0 <= i < |more| :: v.cursor <= more[i].number < |v.history|;
    }
  }

  lemma {:induction false} RunKeepsOrder(v: View, ops: seq<Op>)
    requires InOrder(v)
    ensures InOrder(After(v, ops))
    decreases |ops|
  {
    if ops != [] {
      StepKeepsOrder(v, ops[0]);
      RunKeepsOrder(Step(v, ops[0]), ops[1..]);
    }
  }

  /** Entry `q` was sent. */
  ghost predicate WasSent(v: View, q: nat) {
    exists i :: 0 <= i < |v.sent| && v.sent[i].number == q
  }

  /** How long the history was at the first tick after push `q`, when `n` entries were pushed before. */
  function SizeWhenSeen(n: nat, ops: seq<Op>, q: nat): Option<nat>
    decreases |ops|
  {
    if ops == [] then None
    else if ops[0].Push? then SizeWhenSeen(n + 1, ops[1..], q)
    else if q < n then Some(n)
    else SizeWhenSeen(n, ops[1..], q)
  }

  /** The first tick after push `q` found it still in the ring. */
  predicate SeenInTime(n: nat, ops: seq<Op>, q: nat) {
    var size := SizeWhenSeen(n, ops, q);
    size.Some? && size.value <= q + LOG_CAPACITY
  }

  lemma TickSends(v: View, q: nat)
    requires v.cursor <= |v.history|
    ensures WasSent(Step(v, Tick), q) <==> WasSent(v, q) || Max(Oldest(v.history), v.cursor) <= q < |v.history|
  {
    var lo := Max(Oldest(v.history), v.cursor);
    var more := Entries(v.history, lo, |v.history|);
    var all := Step(v, Tick).sent;
    assert forall i | 0 <= i < |all| :: all[i] == if i < |v.sent| then v.sent[i] else more[i - |v.sent|];
    if WasSent(v, q) {
      var i :| 0 <= i < |v.sent| && v.sent[i].number == q;
      assert all[i].number == q;
    } else if lo <= q < |v.history| {
      assert all[|v.sent| + (q - lo)] == more[q - lo];
    }
  }

  /** What is behind the cursor is decided; what is ahead of it is decided by the tick that first sees it. */
  lemma {:induction false} RunSends(v: View, ops: seq<Op>, q: nat)
    requires v.cursor <= |v.history|
    ensures q < v.cursor ==> q < After(v, ops).cursor && (WasSent(After(v, ops), q) <==> WasSent(v, q))
    ensures q >= v.cursor && !WasSent(v, q) ==>
              && (q < After(v, ops).cursor <==> SizeWhenSeen(|v.history|, ops, q).Some?)
              && (WasSent(After(v, ops), q) <==> SeenInTime(|v.history|, ops, q))
    decreases |ops|
  {
    if ops != [] {
      var next := Step(v, ops[0]);
      RunSends(next, ops[1..], q);
      if ops[0].Tick? {
        TickSends(v, q);
      } else {
        assert WasSent(next, q) <==> WasSent(v, q);
      }
    }
  }

  /** Some tick came after more than 100 pushes; `waiting` of them are already there. */
  predicate LateTick(waiting: nat, ops: seq<Op>)
    decreases |ops|
  {
    if ops == [] then false
    else if ops[0].Push? then LateTick(waiting + 1, ops[1..])
    else waiting > LOG_CAPACITY || LateTick(0, ops[1..])
  }

  /** Entry `q` was evicted before a tick could see it. */
  predicate Evicted(n: nat, ops: seq<Op>, q: nat) {
    SizeWhenSeen(n, ops, q).Some? && !SeenInTime(n, ops, q)
  }

  ghost predicate SomeEvicted(cursor: nat, n: nat, ops: seq<Op>) {
    exists q: nat :: q >= cursor && Evicted(n, ops, q)
  }

  lemma {:induction false} LateTickEvicts(cursor: nat, n: nat, ops: seq<Op>)
    requires cursor <= n
    ensures LateTick(n - cursor, ops) <==> SomeEvicted(cursor, n, ops)
    decreases |ops|
  {
    if ops == [] {
    } else if ops[0].Push? {
      LateTickEvicts(cursor, n + 1, ops[1..]);
      PushEvictsAlike(cursor, n, ops);
    } else {
      LateTickEvicts(n, n, ops[1..]);
      TickEvicts(cursor, n, ops);
    }
  }

  lemma PushEvictsAlike(cursor: nat, n: nat, ops: seq<Op>)
    requires ops != [] && ops[0].Push?
    ensures SomeEvicted(cursor, n, ops) <==> SomeEvicted(cursor, n + 1, ops[1..])
  {
    if SomeEvicted(cursor, n, ops) {
      var q: nat :| q >= cursor && Evicted(n, ops, q);
      assert Evicted(n + 1, ops[1..], q);
    }
    if SomeEvicted(cursor, n + 1, ops[1..]) {
      var q: nat :| q >= cursor && Evicted(n + 1, ops[1..], q);
      assert Evicted(n, ops, q);
    }
  }

  lemma TickEvicts(cursor: nat, n: nat, ops: seq<Op>)
    requires ops != [] && ops[0].Tick? && cursor <= n
    ensures SomeEvicted(cursor, n, ops) <==> n - cursor > LOG_CAPACITY || SomeEvicted(n, n, ops[1..])
  {
    assert forall q: nat | q >= n :: Evicted(n, ops, q) <==> Evicted(n, ops[1..], q);
    assert forall q: nat | q < n :: Evicted(n, ops, q) <==> n > q + LOG_CAPACITY;
    if n - cursor > LOG_CAPACITY {
      assert Evicted(n, ops, cursor);
    }
  }

  lemma {:induction false} NumbersReach(es: seq<Entry>, i: nat)
    requires Increasing(es) && i < |es|
    ensures es[i].number >= i
  {
    if i > 0 {
      NumbersReach(es, i - 1);
    }
  }

  /** Numbers in order that leave none out count up from zero. */
  lemma {:induction false} NumbersCount(v: View, i: nat)
    requires InOrder(v) && (forall q: nat | q < v.cursor :: WasSent(v, q)) && i < v.cursor
    ensures i < |v.sent| && v.sent[i].number == i
  {
    assert WasSent(v, i);
    var j :| 0 <= j < |v.sent| && v.sent[j].number == i;
    NumbersReach(v.sent, j);
    if j < i {
      NumbersCount(v, j);
    }
  }

  lemma AllSentIsComplete(v: View)
    requires InOrder(v)
    ensures v.sent == Entries(v.history, 0, v.cursor) <==> forall q: nat | q < v.cursor :: WasSent(v, q)
  {
    var all := Entries(v.history, 0, v.cursor);
    if forall q: nat | q < v.cursor :: WasSent(v, q) {
      forall i | 0 <= i < v.cursor ensures i < |v.sent| && v.sent[i] == all[i] {
        NumbersCount(v, i);
      }
      if |v.sent| > v.cursor {
        NumbersReach(v.sent, v.cursor);
      }
      if v.cursor > 0 {
        NumbersCount(v, v.cursor - 1);
      }
      assert |v.sent| == v.cursor;
      assert v.sent == all;
    } else if v.sent == all {
      forall q: nat | q < v.cursor ensures WasSent(v, q) {
        assert v.sent[q].number == q;
      }
    }
  }

  /**
   Over every run of pushes and ticks a stream sends entries in order, without
   repetition and with the right text, and misses exactly the evicted ones: entry
   `q` is passed over once a tick has come after it, and was sent if and only if
   the first such tick found at most 100 entries from `q` on.
   */
  lemma StreamIsFaithful(ops: seq<Op>)
    ensures InOrder(After(Start(), ops))
    ensures forall q: nat ::
              && (q < After(Start(), ops).cursor <==> SizeWhenSeen(0, ops, q).Some?)
              && (WasSent(After(Start(), ops), q) <==> SeenInTime(0, ops, q))
  {
    RunKeepsOrder(Start(), ops);
    forall q: nat
      ensures q < After(Start(), ops).cursor <==> SizeWhenSeen(0, ops, q).Some?
      ensures WasSent(After(Start(), ops), q) <==> SeenInTime(0, ops, q)
    {
      RunSends(Start(), ops, q);
    }
  }

  /** Hence it has sent every entry up to its cursor exactly if no tick came after more than 100 pushes. */
  lemma CompleteUnlessLate(ops: seq<Op>)
    ensures var w := After(Start(), ops); w.sent == Entries(w.history, 0, w.cursor) <==> !LateTick(0, ops)
  {
    var w := After(Start(), ops);
    StreamIsFaithful(ops);
    AllSentIsComplete(w);
    LateTickEvicts(0, 0, ops);
    assert forall q: nat :: Evicted(0, ops, q) <==> q < w.cursor && !WasSent(w, q);
  }

  // ----- Numbers taken before the lock -----

  /** The two halves of a push as separate steps of concurrent callers. */
  datatype Race = Race(next: nat, taken: set<nat>, log: seq<Entry>, cursor: nat, sent: seq<Entry>)

  datatype RaceOp = Take | Append(number: nat, text: string) | Poll

  predicate RaceEnabled(r: Race, op: RaceOp) {
    op.Append? ==> op.number in r.taken
  }

  function RaceStep(r: Race, op: RaceOp): Race
    requires RaceEnabled(r, op)
  {
    match op
    case Take => r.(next := r.next + 1, taken := r.taken + {r.next})
    case Append(q, text) =>
      var kept := if |r.log| >= LOG_CAPACITY then r.log[1..] else r.log;
      r.(taken := r.taken - {q}, log := kept + [Entry(q, text)])
    case Poll =>
      var es := Since(r.log, r.cursor);
      r.(sent := r.sent + es, cursor := if es == [] then r.cursor else es[|es| - 1].number + 1)
  }

  ghost predicate RaceRun(r: Race, ops: seq<RaceOp>, t: Race)
    decreases |ops|
  {
    if ops == [] then t == r else RaceEnabled(r, ops[0]) && RaceRun(RaceStep(r, ops[0]), ops[1..], t)
  }

  lemma {:induction false} SinceIsRecent(log: seq<Entry>, from: nat)
    ensures forall e | e in Since(log, from) :: e.number >= from
  {
    if log != [] {
      SinceIsRecent(log[..|log| - 1], from);
    }
  }

  /** Whatever happens next, a stream never sends an entry below its cursor. */
  lemma {:induction false} OvertakenIsLost(r: Race, ops: seq<RaceOp>, t: Race)
    requires RaceRun(r, ops, t)
    ensures r.cursor <= t.cursor && r.sent <= t.sent
    ensures forall i | |r.sent| <= i < |t.sent| :: t.sent[i].number >= r.cursor
    decreases |ops|
  {
    if ops != [] {
      var next := RaceStep(r, ops[0]);
      SinceIsRecent(r.log, r.cursor);
      if ops[0].Poll? && Since(r.log, r.cursor) != [] {
        var es := Since(r.log, r.cursor);
        assert es[|es| - 1] in es;
      }
      OvertakenIsLost(next, ops[1..], t);
      assert forall i | |r.sent| <= i < |next.sent| :: next.sent[i] in Since(r.log, r.cursor);
    }
  }

  function RaceStart(): Race {
    Race(0, {}, [], 0, [])
  }

  /** The ring after one more push. */
  lemma RingGrows(h: seq<string>, text: string)
    ensures Ring(h + [text]) ==
            (if |Ring(h)| >= LOG_CAPACITY then Ring(h)[1..] else Ring(h)) + [Entry(|h|, text)]
  {}

  /** The racing machine shows what the one-step machine shows. */
  ghost predicate Agrees(r: Race, v: View) {
    v.cursor <= |v.history| && r.log == Ring(v.history) && r.cursor == v.cursor && r.sent == v.sent
  }

  /** An append of the next number in order is the one-step push. */
  lemma UninterruptedPush(r: Race, v: View, text: string)
    requires Agrees(r, v) && |v.history| in r.taken
    ensures Agrees(RaceStep(r, Append(|v.history|, text)), Step(v, Push(text)))
  {
    RingGrows(v.history, text);
  }

  /** A poll of a ring in order is the tick. */
  lemma UninterruptedPoll(r: Race, v: View)
    requires Agrees(r, v)
    ensures Agrees(RaceStep(r, Poll), Step(v, Tick))
  {
    RingSince(v.history, Some(r.cursor));
    assert RaceStep(r, Poll).sent == r.sent + Since(r.log, r.cursor);
  }

  /** The appends come in the order of their numbers, the next one being `n`. */
  predicate InNumberOrder(ops: seq<RaceOp>, n: nat)
    decreases |ops|
  {
    if ops == [] then true
    else if ops[0].Append? then ops[0].number == n && InNumberOrder(ops[1..], n + 1)
    else InNumberOrder(ops[1..], n)
  }

  /** The pushes and ticks of a racing run; taking a number does not show. */
  function Shown(ops: seq<RaceOp>): seq<Op>
    decreases |ops|
  {
    if ops == [] then []
    else
      match ops[0]
      case Take => Shown(ops[1..])
      case Append(_, text) => [Push(text)] + Shown(ops[1..])
      case Poll => [Tick] + Shown(ops[1..])
  }

  lemma AfterCons(v: View, op: Op, ops: seq<Op>)
    requires v.cursor <= |v.history|
    ensures After(v, [op] + ops) == After(Step(v, op), ops)
  {
    assert ([op] + ops)[1..] == ops;
  }

  lemma {:induction false} InOrderRunAgrees(r: Race, v: View, ops: seq<RaceOp>, t: Race)
    requires Agrees(r, v) && RaceRun(r, ops, t) && InNumberOrder(ops, |v.history|)
    ensures Agrees(t, After(v, Shown(ops)))
    decreases |ops|
  {
    if ops != [] {
      var rest, next := ops[1..], RaceStep(r, ops[0]);
      match ops[0]
      case Take =>
        InOrderRunAgrees(next, v, rest, t);
      case Append(_, text) =>
        UninterruptedPush(r, v, text);
        AfterCons(v, Push(text), Shown(rest));
        InOrderRunAgrees(next, Step(v, Push(text)), rest, t);
      case Poll =>
        UninterruptedPoll(r, v);
        AfterCons(v, Tick, Shown(rest));
        InOrderRunAgrees(next, Step(v, Tick), rest, t);
    }
  }

  /**
   However pushes overlap, a run whose appends come in the order of their numbers
   has the ring, the cursor and the stream of the one-step pushes.
   */
  lemma AppendsInOrderAreOneStep(ops: seq<RaceOp>, t: Race)
    requires RaceRun(RaceStart(), ops, t) && InNumberOrder(ops, 0)
    ensures Agrees(t, After(Start(), Shown(ops)))
  {
    assert Ring([]) == [];
    InOrderRunAgrees(RaceStart(), Start(), ops, t);
  }

  // ----- When polling goes on to show the ring faithfully -----

  lemma {:induction false} SinceHolds(log: seq<Entry>, from: nat, e: Entry)
    ensures e in Since(log, from) <==> e in log && e.number >= from
  {
    if log != [] {
      SinceHolds(log[..|log| - 1], from, e);
    }
  }

  /** The entries from `from` on stand in increasing order. */
  ghost predicate IncreasingFrom(log: seq<Entry>, from: nat) {
    forall i, j | 0 <= i < j < |log| && log[i].number >= from && log[j].number >= from :: log[i].number < log[j].number
  }

  lemma {:induction false} SinceIncreases(log: seq<Entry>, from: nat)
    ensures Increasing(Since(log, from)) <==> IncreasingFrom(log, from)
  {
    if log != [] {
      var n := |log| - 1;
      var rest := log[..n];
      SinceIncreases(rest, from);
      IncreasingButLast(log, from);
      if log[n].number >= from {
        IncreasingAppend(Since(rest, from), log[n]);
        SinceBelow(rest, from, log[n].number);
        assert forall i | 0 <= i < n :: rest[i] == log[i];
      } else {
        assert Since(rest, from) + [] == Since(rest, from);
      }
    }
  }

  lemma SinceBelow(log: seq<Entry>, from: nat, bound: nat)
    ensures (forall e | e in Since(log, from) :: e.number < bound)
            <==> (forall i | 0 <= i < |log| && log[i].number >= from :: log[i].number < bound)
  {
    forall i | 0 <= i < |log| ensures log[i] in Since(log, from) <==> log[i].number >= from {
      SinceHolds(log, from, log[i]);
    }
    forall e | e in Since(log, from) ensures e in log && e.number >= from {
      SinceHolds(log, from, e);
    }
  }

  lemma IncreasingAppend(es: seq<Entry>, x: Entry)
    ensures Increasing(es + [x]) <==> Increasing(es) && forall e | e in es :: e.number < x.number
  {
    var all := es + [x];
    if Increasing(all) {
      assert forall i | 0 <= i < |es| :: all[i] == es[i] && all[i].number < all[|es|].number;
    }
  }

  lemma IncreasingButLast(log: seq<Entry>, from: nat)
    requires log != []
    ensures
      var n := |log| - 1;
      IncreasingFrom(log, from) <==>
        && IncreasingFrom(log[..n], from)
        && (log[n].number >= from ==> forall i | 0 <= i < n && log[i].number >= from :: log[i].number < log[n].number)
  {
    var n := |log| - 1;
    var rest := log[..n];
    assert forall i | 0 <= i < n :: rest[i] == log[i];
  }

  /** The cursor is the number after the last entry sent. */
  predicate CursorFollows(r: Race) {
    r.cursor == if r.sent == [] then 0 else r.sent[|r.sent| - 1].number + 1
  }

  lemma {:induction false} RaceKeepsCursor(r: Race, ops: seq<RaceOp>, t: Race)
    requires CursorFollows(r) && RaceRun(r, ops, t)
    ensures CursorFollows(t)
    decreases |ops|
  {
    if ops != [] {
      RaceKeepsCursor(RaceStep(r, ops[0]), ops[1..], t);
    }
  }

  /** The state after `n` polls. */
  function Polled(r: Race, n: nat): Race
    decreases n
  {
    if n == 0 then r else Polled(RaceStep(r, Poll), n - 1)
  }

  /** In order, nothing twice, and nothing in the ring left out. */
  ghost predicate ShowsRing(r: Race) {
    Increasing(r.sent) && forall e | e in r.log :: e in r.sent
  }

  /** What is unsent in the ring is ahead of the cursor and in order. */
  ghost predicate NoneOvertaken(r: Race) {
    && (forall e | e in r.log && e !in r.sent :: e.number >= r.cursor)
    && (forall i, j | 0 <= i < j < |r.log| && r.log[i] !in r.sent && r.log[j] !in r.sent ::
          r.log[i].number < r.log[j].number)
  }

  /** While `sent` increases, entries ahead of the cursor are unsent. */
  lemma SentIsBehind(r: Race, e: Entry)
    requires CursorFollows(r) && Increasing(r.sent) && e in r.sent
    ensures e.number < r.cursor
  {
    var i :| 0 <= i < |r.sent| && r.sent[i] == e;
  }

  lemma IncreasingJoin(a: seq<Entry>, b: seq<Entry>, cursor: nat)
    requires Increasing(a) && (forall e | e in a :: e.number < cursor) && forall e | e in b :: e.number >= cursor
    ensures Increasing(a + b) <==> Increasing(b)
  {
    var all := a + b;
    assert forall i | 0 <= i < |b| :: all[|a| + i] == b[i];
    if Increasing(b) {
      forall i, j | 0 <= i < j < |all| ensures all[i].number < all[j].number {
        if i < |a| <= j {
          assert all[i] in a && all[j] in b;
        }
      }
    }
  }

  /** A poll keeps the order exactly if the entries ahead of the cursor are in order. */
  lemma PollOrderExactly(r: Race)
    requires CursorFollows(r) && Increasing(r.sent)
    ensures Increasing(RaceStep(r, Poll).sent) <==> IncreasingFrom(r.log, r.cursor)
  {
    var es := Since(r.log, r.cursor);
    forall e | e in es ensures e.number >= r.cursor {
      SinceHolds(r.log, r.cursor, e);
    }
    forall e | e in r.sent ensures e.number < r.cursor {
      SentIsBehind(r, e);
    }
    IncreasingJoin(r.sent, es, r.cursor);
    SinceIncreases(r.log, r.cursor);
  }

  /** A poll sends the whole ring exactly if what is unsent is ahead of the cursor. */
  lemma PollSendsExactly(r: Race, e: Entry)
    requires e in r.log
    ensures e in RaceStep(r, Poll).sent <==> e in r.sent || e.number >= r.cursor
  {
    SinceHolds(r.log, r.cursor, e);
  }

  lemma PollShowsExactly(r: Race)
    requires CursorFollows(r) && Increasing(r.sent)
    ensures ShowsRing(RaceStep(r, Poll)) <==> NoneOvertaken(r)
  {
    PollOrderExactly(r);
    forall e | e in r.log ensures e in RaceStep(r, Poll).sent <==> e in r.sent || e.number >= r.cursor {
      PollSendsExactly(r, e);
    }
    forall e | e in r.sent ensures e.number < r.cursor {
      SentIsBehind(r, e);
    }
    assert forall i | 0 <= i < |r.log| :: r.log[i] in r.log;
  }

  lemma {:induction false} ShownStays(r: Race, n: nat)
    requires CursorFollows(r) && ShowsRing(r)
    ensures Polled(r, n) == r
  {
    if n > 0 {
      forall e | e in r.log ensures e.number < r.cursor {
        SentIsBehind(r, e);
      }
      NoneSince(r.log, r.cursor);
      assert r.sent + [] == r.sent;
      ShownStays(r, n - 1);
    }
  }

  /**
   In every reachable state of racing pushes whose stream is in order so far,
   polling goes on in order, repeats nothing and shows the whole ring, for any
   number of polls, if and only if no unsent entry was overtaken.
   */
  lemma PollsShowRingExactly(ops: seq<RaceOp>, r: Race)
    requires RaceRun(RaceStart(), ops, r) && Increasing(r.sent)
    ensures (forall n: nat | n > 0 :: ShowsRing(Polled(r, n))) <==> NoneOvertaken(r)
  {
    RaceKeepsCursor(RaceStart(), ops, r);
    PollShowsExactly(r);
    var once := RaceStep(r, Poll);
    assert Polled(r, 1) == once;
    if NoneOvertaken(r) {
      RaceKeepsCursor(r, [Poll], once);
      forall n: nat | n > 0 ensures ShowsRing(Polled(r, n)) {
        ShownStays(once, n - 1);
      }
    }
  }

  // ----- When numbers in flight can do no harm -----

  /** Numbers in flight are in no entry, and all numbers were given out. */
  ghost predicate Fresh(r: Race) {
    && (forall q | q in r.taken :: q < r.next)
    && (forall e | e in r.log || e in r.sent :: e.number < r.next && e.number !in r.taken)
  }

  lemma {:induction false} RaceKeepsFresh(r: Race, ops: seq<RaceOp>, t: Race)
    requires Fresh(r) && RaceRun(r, ops, t)
    ensures Fresh(t)
    decreases |ops|
  {
    if ops != [] {
      var next := RaceStep(r, ops[0]);
      if ops[0].Poll? {
        forall e | e in next.sent ensures e in r.sent || e in r.log {
          SinceHolds(r.log, r.cursor, e);
        }
      }
      RaceKeepsFresh(next, ops[1..], t);
    }
  }

  /** A continuation in which no new push starts and which ends with a poll. */
  predicate Finishes(ops: seq<RaceOp>) {
    ops != [] && ops[|ops| - 1].Poll? && forall op | op in ops :: !op.Take?
  }

  /** Whatever order the pushes in flight come in, every poll shows the ring in order. */
  ghost predicate AlwaysShows(r: Race) {
    forall ops, t :: RaceRun(r, ops, t) && Finishes(ops) ==> ShowsRing(t)
  }

  /** At most one push is in flight, and its number is the newest. */
  ghost predicate OneNewest(r: Race) {
    && (forall p, q | p in r.taken && q in r.taken :: p == q)
    && (forall q | q in r.taken :: q >= r.cursor && forall e | e in r.log && e !in r.sent :: e.number < q)
  }

  ghost predicate Harmless(r: Race) {
    CursorFollows(r) && Increasing(r.sent) && NoneOvertaken(r) && OneNewest(r)
  }

  lemma HarmlessPoll(r: Race)
    requires Harmless(r)
    ensures Harmless(RaceStep(r, Poll)) && ShowsRing(RaceStep(r, Poll))
  {
    var next, es := RaceStep(r, Poll), Since(r.log, r.cursor);
    PollShowsExactly(r);
    forall q | q in r.taken ensures q >= next.cursor {
      if es != [] {
        var e := es[|es| - 1];
        assert e in es;
        SinceHolds(r.log, r.cursor, e);
        if e in r.sent {
          SentIsBehind(r, e);
        }
      }
    }
  }

  lemma HarmlessAppend(r: Race, q: nat, text: string)
    requires Harmless(r) && q in r.taken
    ensures Harmless(RaceStep(r, Append(q, text)))
  {
    var next, k := RaceStep(r, Append(q, text)), if |r.log| >= LOG_CAPACITY then 1 else 0;
    assert forall i | 0 <= i < |next.log| - 1 :: next.log[i] == r.log[i + k];
    assert forall i | 0 <= i < |next.log| - 1 :: next.log[i] in r.log;
  }

  lemma {:induction false} HarmlessRun(r: Race, ops: seq<RaceOp>, t: Race)
    requires Harmless(r) && RaceRun(r, ops, t) && Finishes(ops)
    ensures ShowsRing(t)
    decreases |ops|
  {
    var next := RaceStep(r, ops[0]);
    assert ops[0] in ops;
    if ops[0].Poll? {
      HarmlessPoll(r);
    } else {
      HarmlessAppend(r, ops[0].number, ops[0].text);
    }
    if |ops| > 1 {
      assert ops[1..][|ops| - 2] == ops[|ops| - 1];
      HarmlessRun(next, ops[1..], t);
    }
  }

  /** A number in flight behind the cursor is lost once it is appended. */
  lemma LateNumberFails(r: Race, q: nat)
    requires CursorFollows(r) && Increasing(r.sent) && Fresh(r) && q in r.taken && q < r.cursor
    ensures !AlwaysShows(r)
  {
    var a, b := RaceStep(r, Append(q, "")), RaceStep(RaceStep(r, Append(q, "")), Poll);
    assert a.log[|a.log| - 1] == Entry(q, "");
    assert Entry(q, "") in a.log && Entry(q, "") !in a.sent;
    PollShowsExactly(a);
    assert RaceRun(b, [], b);
    RaceRunCons(a, Poll, [], b);
    RaceRunCons(r, Append(q, ""), [Poll] + [], b);
    assert Finishes([Append(q, "")] + ([Poll] + []));
  }

  /** What fails after a first step fails. */
  lemma FailsLater(r: Race, op: RaceOp)
    requires RaceEnabled(r, op) && !op.Take? && !AlwaysShows(RaceStep(r, op))
    ensures !AlwaysShows(r)
  {
    var ops, t :| RaceRun(RaceStep(r, op), ops, t) && Finishes(ops) && !ShowsRing(t);
    RaceRunCons(r, op, ops, t);
    var all := [op] + ops;
    assert all[|all| - 1] == ops[|ops| - 1];
    assert Finishes(all);
  }

  /** One poll alone decides whether anything was overtaken. */
  lemma OnePollShows(r: Race)
    requires CursorFollows(r) && Increasing(r.sent) && AlwaysShows(r)
    ensures NoneOvertaken(r) && ShowsRing(RaceStep(r, Poll)) && CursorFollows(RaceStep(r, Poll))
  {
    var next := RaceStep(r, Poll);
    RaceRunCons(r, Poll, [], next);
    assert Finishes([Poll] + []);
    PollShowsExactly(r);
    RaceKeepsCursor(r, [Poll] + [], next);
  }

  lemma NewestOrFails(r: Race, q: nat, e: Entry)
    requires CursorFollows(r) && Increasing(r.sent) && Fresh(r) && q in r.taken && e in r.log && q <= e.number
    requires e !in r.sent
    ensures !AlwaysShows(r)
  {
    if AlwaysShows(r) {
      OnePollShows(r);
      var next := RaceStep(r, Poll);
      SentIsBehind(next, e);
      RaceRunCons(r, Poll, [], next);
      RaceKeepsFresh(r, [Poll] + [], next);
      LateNumberFails(next, q);
      FailsLater(r, Poll);
    }
  }

  lemma TwoInFlightFail(r: Race, p: nat, q: nat)
    requires CursorFollows(r) && Increasing(r.sent) && Fresh(r) && p in r.taken && q in r.taken && p < q
    ensures !AlwaysShows(r)
  {
    var a := RaceStep(r, Append(q, ""));
    if AlwaysShows(a) {
      RaceRunCons(r, Append(q, ""), [], a);
      RaceKeepsFresh(r, [Append(q, "")] + [], a);
      assert a.log[|a.log| - 1] == Entry(q, "");
      assert Entry(q, "") in a.log && Entry(q, "") !in a.sent;
      NewestOrFails(a, p, Entry(q, ""));
    }
    FailsLater(r, Append(q, ""));
  }

  /**
   In every reachable state whose stream is in order so far: in whatever order the
   pushes in flight are appended, and wherever polls come between, every poll shows
   the ring in order and whole, if and only if nothing unsent was overtaken, at most
   one push is in flight, and its number is at or after the cursor and above every
   unsent entry.
   */
  lemma RacesAreHarmlessExactly(ops: seq<RaceOp>, r: Race)
    requires RaceRun(RaceStart(), ops, r) && Increasing(r.sent)
    ensures AlwaysShows(r) <==> NoneOvertaken(r) && OneNewest(r)
  {
    RaceKeepsCursor(RaceStart(), ops, r);
    RaceKeepsFresh(RaceStart(), ops, r);
    if NoneOvertaken(r) && OneNewest(r) {
      forall more, t | RaceRun(r, more, t) && Finishes(more) ensures ShowsRing(t) {
        HarmlessRun(r, more, t);
      }
    } else if AlwaysShows(r) {
      OnePollShows(r);
      if p, q :| p in r.taken && q in r.taken && p < q {
        TwoInFlightFail(r, p, q);
      } else if q :| q in r.taken && q < r.cursor {
        LateNumberFails(r, q);
      } else {
        assert forall p, q | p in r.taken && q in r.taken :: !(p < q) && !(q < p);
        var q :| q in r.taken && exists e :: e in r.log && e !in r.sent && e.number >= q;
        var e :| e in r.log && e !in r.sent && e.number >= q;
        NewestOrFails(r, q, e);
      }
    }
  }

  lemma SinceOfTwo(x: Entry, y: Entry, from: nat)
    ensures Since([x, y], from) == (if x.number >= from then [x] else []) + (if y.number >= from then [y] else [])
  {
    assert [x, y][..1] == [x] && [x][..0] == [];
    assert Since([x], from) == if x.number >= from then [x] else [];
  }

  /** Two polls of a ring whose entries stand in the wrong order. */
  lemma PollTwice(x: Entry, y: Entry) returns (ops: seq<RaceOp>)
    requires x.number == 1 && y.number == 0
    ensures RaceRun(Race(2, {}, [x, y], 0, []), ops, Race(2, {}, [x, y], 2, [x, y, x]))
  {
    var r, s, t := Race(2, {}, [x, y], 0, []), Race(2, {}, [x, y], 1, [x, y]), Race(2, {}, [x, y], 2, [x, y, x]);
    SinceOfTwo(x, y, 0);
    SinceOfTwo(x, y, 1);
    assert RaceStep(r, Poll) == s && RaceStep(s, Poll) == t;
    RaceRunCons(s, Poll, [], t);
    RaceRunCons(r, Poll, [Poll] + [], t);
    ops := [Poll] + ([Poll] + []);
  }

  /** Racing pushes before the first tick: the later one is sent first, and then once more. */
  lemma RacingPushIsRepeated(a: string, b: string)
    ensures exists ops, t ::
      && RaceRun(RaceStart(), ops, t)
      && t.sent == [Entry(1, b), Entry(0, a), Entry(1, b)]
  {
    var x, y := Entry(1, b), Entry(0, a);
    var ops := PollTwice(x, y);
    var t := Race(2, {}, [x, y], 2, [x, y, x]);
    var r1, r2 := Race(1, {0}, [], 0, []), Race(2, {0, 1}, [], 0, []);
    var r3, r4 := Race(2, {0}, [x], 0, []), Race(2, {}, [x, y], 0, []);
    assert RaceStep(r3, Append(0, a)) == r4;
    RaceRunCons(r3, Append(0, a), ops, t);
    ops := [Append(0, a)] + ops;
    assert RaceStep(r2, Append(1, b)) == r3;
    RaceRunCons(r2, Append(1, b), ops, t);
    ops := [Append(1, b)] + ops;
    assert RaceStep(r1, Take) == r2;
    RaceRunCons(r1, Take, ops, t);
    RaceRunCons(RaceStart(), Take, [Take] + ops, t);
    assert RaceRun(RaceStart(), [Take] + ([Take] + ops), t);
  }

  /** Two racing pushes and two ticks: entry 0 sits in the ring, unevicted and never sent. */
  lemma RacingPushIsOvertaken(a: string, b: string)
    ensures exists ops, t ::
      && RaceRun(RaceStart(), ops, t)
      && t.log == [Entry(1, b), Entry(0, a)] && t.sent == [Entry(1, b)] && t.cursor == 2
  {
    var r0 := RaceStart();
    var r1, r2 := Race(1, {0}, [], 0, []), Race(2, {0, 1}, [], 0, []);
    var t := Race(2, {}, [Entry(1, b), Entry(0, a)], 2, [Entry(1, b)]);
    assert RaceStep(r0, Take) == r1 && RaceStep(r1, Take) == r2;
    var late := Overtaken(a, b, r2);
    RaceRunCons(r1, Take, late, t);
    RaceRunCons(r0, Take, [Take] + late, t);
    assert RaceRun(RaceStart(), [Take] + ([Take] + late), t);
  }

  lemma Overtaken(a: string, b: string, r2: Race) returns (ops: seq<RaceOp>)
    requires r2 == Race(2, {0, 1}, [], 0, [])
    ensures RaceRun(r2, ops, Race(2, {}, [Entry(1, b), Entry(0, a)], 2, [Entry(1, b)]))
  {
    var first := Entry(1, b);
    var r3 := Race(2, {0}, [first], 0, []);
    assert RaceStep(r2, Append(1, b)) == r3;
    var r4 := Race(2, {0}, [first], 2, [first]);
    assert [first][..0] == [] && Since([first], 0) == [first];
    assert RaceStep(r3, Poll) == r4;
    var r5 := Race(2, {}, [first, Entry(0, a)], 2, [first]);
    assert RaceStep(r4, Append(0, a)) == r5;
    NoneSince(r5.log, 2);
    assert RaceStep(r5, Poll) == r5;
    RaceRunCons(r5, Poll, [], r5);
    ops := [Poll] + [];
    RaceRunCons(r4, Append(0, a), ops, r5);
    ops := [Append(0, a)] + ops;
    RaceRunCons(r3, Poll, ops, r5);
    ops := [Poll] + ops;
    RaceRunCons(r2, Append(1, b), ops, r5);
    ops := [Append(1, b)] + ops;
  }

  lemma RaceRunCons(r: Race, op: RaceOp, ops: seq<RaceOp>, t: Race)
    requires RaceEnabled(r, op) && RaceRun(RaceStep(r, op), ops, t)
    ensures RaceRun(r, [op] + ops, t)
  {
    assert ([op] + ops)[1..] == ops;
  }
}
