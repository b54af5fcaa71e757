/** The Sorbet mapping (src/adapter/sorbet.rs): one counter of open operations. */
module Sorbet {
  import opened Wrappers
  import opened ServerStates
  import opened Histories
  import opened Tracking
  import opened Hearing

  /** Operations that process a cross-file request; they say nothing about readiness. */
  const REQUEST_TIED_OPERATIONS: set<string> := {"References", "SymbolSearch", "Rename", "MoveMethod"}

  datatype Status = Start | End | OtherStatus

  datatype Operation = Operation(name: string, status: Status)

  datatype Fields = Fields(state: ServerState, openOperations: nat)

  const INITIAL := Fields(INITIALIZING, 0)

  predicate Counted(o: Operation) {
    o.name !in REQUEST_TIED_OPERATIONS
  }

  function OnOperation(f: Fields, o: Operation): (Fields, Option<ServerState>) {
    if !Counted(o) || o.status.OtherStatus? || (o.status == End && f.openOperations == 0) then (f, None)
    else
      var open := if o.status == Start then f.openOperations + 1 else f.openOperations - 1;
      var readiness := if open == 0 then Ready
                       else if o.status == Start && f.state.readiness == Ready then Indexing
                       else f.state.readiness;
      var state := f.state.(readiness := readiness);
      (Fields(state, open), Some(state))
  }

  class SorbetAdapter {
    var state: ServerState
    var openOperations: nat

    function Contents(): Fields
      reads this
    {
      Fields(state, openOperations)
    }

    constructor ()
      ensures Contents() == INITIAL
    {
      state, openOperations := INITIALIZING, 0;
    }

    method Observe(o: Operation) returns (answer: Option<ServerState>)
      modifies this
      ensures (Contents(), answer) == OnOperation(old(Contents()), o)
    {
      if o.name in REQUEST_TIED_OPERATIONS {
        return None;
      }
      match o.status {
        case Start =>
          openOperations := openOperations + 1;
          if state.readiness == Ready {
            state := state.(readiness := Indexing);
          }
        case End =>
          if openOperations == 0 {
            return None;
          }
          openOperations := openOperations - 1;
          if openOperations == 0 {
            state := state.(readiness := Ready);
          }
        case OtherStatus =>
          return None;
      }
      answer := Some(state);
    }
  }

  function After(h: seq<Operation>): Fields {
    if h == [] then INITIAL else OnOperation(After(h[..|h| - 1]), h[|h| - 1]).0
  }

  /** What an operation adds: a counted start one, a counted end minus one. */
  function Balance(o: Operation): int {
    if !Counted(o) then 0 else match o.status
      case Start => 1
      case End => -1
      case OtherStatus => 0
  }

  function Balances(h: seq<Operation>): (d: seq<int>) {
    seq(|h|, i requires 0 <= i < |h| => Balance(h[i]))
  }

  predicate Starts(before: seq<Operation>, o: Operation) { Counted(o) && o.status == Start }

  predicate Never(before: seq<Operation>, o: Operation) { false }

  /** The counter is the greatest excess of starts over ends that a suffix of the history has, so
      ends without a start never disturb later rounds; and the server is ready exactly when that
      maximum is zero and some operation has started. */
  lemma {:induction false} ReadyWhenAllOperationsEnded(h: seq<Operation>)
    ensures IsGreatestSuffixSum(Balances(h), After(h).openOperations)
    ensures After(h).state.readiness == Ready <==> After(h).openOperations == 0 && Since(h, Starts, Never)
    ensures After(h).state.health == Health.Unknown && After(h).state.message == None
  {
    CounterIsFloored(h);
    FlooredIsGreatestSuffixSum(Balances(h));
    ReadyAfterAStart(h);
  }

  lemma {:induction false} CounterIsFloored(h: seq<Operation>)
    ensures After(h).openOperations == Floored(Balances(h))
  {
    if h != [] {
      CounterIsFloored(h[..|h| - 1]);
      assert Balances(h)[..|h| - 1] == Balances(h[..|h| - 1]);
    }
  }

  lemma {:induction false} ReadyAfterAStart(h: seq<Operation>)
    ensures After(h).state.readiness == Ready <==> After(h).openOperations == 0 && Since(h, Starts, Never)
    ensures After(h).openOperations > 0 ==> Since(h, Starts, Never)
    ensures After(h).state.health == Health.Unknown && After(h).state.message == None
  {
    if h != [] {
      var before, o := h[..|h| - 1], h[|h| - 1];
      ReadyAfterAStart(before);
      SplitLast(h);
      SinceStep(before, o, Starts, Never);
    }
  }

  // --- Readiness otherwise ------------------------------------------------------------------

  /** The operation leaves some started and none open. */
  ghost predicate LeavesReady(before: seq<Operation>, o: Operation) {
    Since(before + [o], Starts, Never) && IsGreatestSuffixSum(Balances(before + [o]), 0)
  }

  lemma {:induction false} NotReadyExactly(h: seq<Operation>)
    ensures var readiness := After(h).state.readiness;
      readiness == if readiness == Ready then Ready else if Since(h, LeavesReady, Never) then Indexing else Initializing
    ensures After(h).state.readiness == Ready ==> Since(h, LeavesReady, Never)
  {
    if h != [] {
      var before, o := h[..|h| - 1], h[|h| - 1];
      NotReadyExactly(before);
      SplitLast(h);
      SinceStep(before, o, LeavesReady, Never);
      ReadyByTheHistory(h);
    }
  }

  lemma ReadyByTheHistory(h: seq<Operation>)
    ensures After(h).state.readiness == Ready <==> Since(h, Starts, Never) && IsGreatestSuffixSum(Balances(h), 0)
  {
    ReadyWhenAllOperationsEnded(h);
    GreatestIsOne(Balances(h), After(h).openOperations, 0);
  }

  lemma GreatestIsOne(d: seq<int>, m: int, n: int)
    requires IsGreatestSuffixSum(d, m)
    ensures IsGreatestSuffixSum(d, n) <==> m == n
  {
    if IsGreatestSuffixSum(d, n) {
      var i :| 0 <= i <= |d| && Sum(d[i..]) == m;
      var j :| 0 <= j <= |d| && Sum(d[j..]) == n;
    }
  }

  /** Not ready is initializing in the first round, and indexing in the later ones. */
  lemma ReadinessExactly(h: seq<Operation>)
    ensures After(h).state.readiness ==
            if Since(h, Starts, Never) && IsGreatestSuffixSum(Balances(h), 0) then Ready
            else if Since(h, LeavesReady, Never) then Indexing else Initializing
  {
    ReadyByTheHistory(h);
    NotReadyExactly(h);
  }

  // --- What lsp-det is told -----------------------------------------------------------------

  /** What the mapping answers, event by event. */
  function Answers(h: seq<Operation>): (answers: seq<Option<ServerState>>)
    ensures |answers| == |h|
  {
    if h == [] then [] else Answers(h[..|h| - 1]) + [OnOperation(After(h[..|h| - 1]), h[|h| - 1]).1]
  }

  lemma AnswerStep(f: Fields, o: Operation)
    ensures OnOperation(f, o).0.state == OnOperation(f, o).1.GetOr(f.state)
  {}

  lemma AnswersOneMore(h: seq<Operation>)
    requires h != []
    ensures Answers(h)[|h| - 1] == OnOperation(After(h[..|h| - 1]), h[|h| - 1]).1
  {}

  lemma AfterOneMore(h: seq<Operation>)
    requires h != []
    ensures After(h).state == OnOperation(After(h[..|h| - 1]), h[|h| - 1]).0.state
  {}

  /** An answer is the state after the event, and where there is none the state is as before. */
  lemma {:induction false} AnswerIsState(h: seq<Operation>, i: nat)
    requires i < |h|
    ensures After(h[..i + 1]).state == Answers(h)[i].GetOr(After(h[..i]).state)
  {
    var before := h[..|h| - 1];
    if i < |before| {
      AnswerIsState(before, i);
      assert h[..i + 1] == before[..i + 1] && h[..i] == before[..i] && Answers(h)[i] == Answers(before)[i];
    } else {
      assert h[..i + 1] == h;
      AnswersOneMore(h);
      AfterOneMore(h);
      AnswerStep(After(before), h[|h| - 1]);
    }
  }

  /** After every history, what the tracker holds is the mapping's state. */
  lemma {:induction false} HeardIsState(h: seq<Operation>, t: Tracked)
    requires t.mapped && t.state == INITIALIZING
    ensures Hears(t, Answers(h)).state == After(h).state && Hears(t, Answers(h)).mapped
  {
    if h != [] {
      var before, o := h[..|h| - 1], h[|h| - 1];
      HeardIsState(before, t);
      HearsOneMore(t, Answers(before), OnOperation(After(before), o).1);
      AnswerStep(After(before), o);
    }
  }

  /** What the tracker goes by after every history, told by the history alone. */
  lemma HeardExactly(h: seq<Operation>, t: Tracked)
    requires t.mapped && t.state == INITIALIZING
    ensures Hears(t, Answers(h)).state == ServerState(Health.Unknown,
              if Since(h, Starts, Never) && IsGreatestSuffixSum(Balances(h), 0) then Ready
              else if Since(h, LeavesReady, Never) then Indexing else Initializing, None)
  {
    HeardIsState(h, t);
    ReadinessExactly(h);
    ReadyWhenAllOperationsEnded(h);
  }
}
