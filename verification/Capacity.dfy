/** The cap on pending requests, and the split check-then-insert that would break it. */
module Capacity {
  import opened Multiplexer
  import opened MultiplexerInvariants

  /** Any number of clients, any interleaving: the map never exceeds its cap. */
  lemma PendingWithinCap(s: State)
    requires Reachable(s)
    ensures |s.pending| <= MAX_PENDING
  {
    ReachableInv(s);
  }

  // ----- The variant with two lock acquisitions -----

  /** Ids that passed the size check and ids inserted. */
  datatype Split = Split(checked: set<nat>, pending: set<nat>)

  datatype SplitAction = Check(rid: nat) | Insert(rid: nat)

  predicate SplitEnabled(s: Split, a: SplitAction) {
    match a
    case Check(rid) => |s.pending| < MAX_PENDING && rid !in s.checked && rid !in s.pending
    case Insert(rid) => rid in s.checked
  }

  function SplitNext(s: Split, a: SplitAction): Split {
    match a
    case Check(rid) => s.(checked := s.checked + {rid})
    case Insert(rid) => Split(s.checked - {rid}, s.pending + {rid})
  }

  ghost predicate SplitRun(s: Split, acts: seq<SplitAction>, t: Split)
    decreases |acts|
  {
    if acts == [] then t == s
    else SplitEnabled(s, acts[0]) && SplitRun(SplitNext(s, acts[0]), acts[1..], t)
  }

  function Below(n: nat): (s: set<nat>)
    ensures forall i: nat :: i in s <==> i < n
  {
    if n == 0 then {} else Below(n - 1) + {n - 1}
  }

  lemma {:induction false} BelowSize(n: nat)
    ensures |Below(n)| == n
  {
    if n > 0 {
      BelowSize(n - 1);
    }
  }

  lemma SplitRunCons(s: Split, a: SplitAction, acts: seq<SplitAction>, t: Split)
    requires SplitEnabled(s, a) && SplitRun(SplitNext(s, a), acts, t)
    ensures SplitRun(s, [a] + acts, t)
  {
    assert ([a] + acts)[1..] == acts;
  }

  lemma {:induction false} CheckAll(i: nat, n: nat, acts: seq<SplitAction>, t: Split) returns (all: seq<SplitAction>)
    requires i <= n && SplitRun(Split(Below(n), {}), acts, t)
    ensures SplitRun(Split(Below(i), {}), all, t)
    decreases n - i
  {
    all := acts;
    if i < n {
      var more := CheckAll(i + 1, n, acts, t);
      assert SplitNext(Split(Below(i), {}), Check(i)) == Split(Below(i + 1), {});
      SplitRunCons(Split(Below(i), {}), Check(i), more, t);
      all := [Check(i)] + more;
    }
  }

  lemma InsertNext(i: nat, n: nat)
    requires i < n
    ensures
      var s := Split(Below(n) - Below(i), Below(i));
      SplitEnabled(s, Insert(i)) && SplitNext(s, Insert(i)) == Split(Below(n) - Below(i + 1), Below(i + 1))
  {
    assert Below(n) - Below(i) - {i} == Below(n) - Below(i + 1);
  }

  lemma NothingLeft(s: set<nat>)
    ensures SplitRun(Split(s - s, s), [], Split({}, s))
  {
    assert s - s == {};
  }

  lemma {:induction false} InsertAll(i: nat, n: nat) returns (acts: seq<SplitAction>)
    requires i <= n
    ensures SplitRun(Split(Below(n) - Below(i), Below(i)), acts, Split({}, Below(n)))
    decreases n - i
  {
    if i == n {
      acts := [];
      NothingLeft(Below(n));
    } else {
      var more := InsertAll(i + 1, n);
      InsertNext(i, n);
      SplitRunCons(Split(Below(n) - Below(i), Below(i)), Insert(i), more, Split({}, Below(n)));
      acts := [Insert(i)] + more;
    }
  }

  /** Checking and inserting under separate locks lets the map grow to any size. */
  lemma SplitExceedsAnyCap(n: nat)
    ensures exists acts, t :: SplitRun(Split({}, {}), acts, t) && |t.pending| == n
  {
    var acts := InsertAll(0, n);
    assert Below(0) == {} && Below(n) - {} == Below(n);
    var all := CheckAll(0, n, acts, Split({}, Below(n)));
    BelowSize(n);
  }
}
