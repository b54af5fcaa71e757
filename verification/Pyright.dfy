/** The pyright and basedpyright mapping (src/adapter/pyright.rs): service instances against
    completed enumerations of their files. */
module Pyright {
  import opened Wrappers
  import opened ServerStates
  import opened Histories
  import opened Tracking
  import opened Hearing
  import opened Progresses

  const SERVICE_STARTED_PREFIX := "Starting service instance "
  const ENUMERATION_FOUND_PREFIX := "Found "
  const ENUMERATION_FOUND_SUFFIX_ONE := " source file"
  const ENUMERATION_FOUND_SUFFIX_MANY := " source files"
  const ENUMERATION_EMPTY := "No source files found."
  const ENUMERATION_STARTED := "Searching for source files"

  /** A `window/logMessage`, by what its text says. */
  datatype Log = ServiceStarted | EnumerationStarted | EnumerationComplete | OtherLog

  function StripSuffix(text: string, suffix: string): Option<string> {
    if EndsWith(text, suffix) then Some(text[..|text| - |suffix|]) else None
  }

  predicate IsCount(text: string) { text != "" && forall c | c in text :: '0' <= c <= '9' }

  predicate IsEnumerationComplete(message: string) {
    || message == ENUMERATION_EMPTY
    || (ENUMERATION_FOUND_PREFIX <= message
        && var rest := message[|ENUMERATION_FOUND_PREFIX|..];
           var many := StripSuffix(rest, ENUMERATION_FOUND_SUFFIX_MANY);
           var count := if many.Some? then many else StripSuffix(rest, ENUMERATION_FOUND_SUFFIX_ONE);
           count.Some? && IsCount(count.value))
  }

  function Read(message: string): Log {
    if SERVICE_STARTED_PREFIX <= message then ServiceStarted
    else if message == ENUMERATION_STARTED then EnumerationStarted
    else if IsEnumerationComplete(message) then EnumerationComplete
    else OtherLog
  }

  datatype Fields = Fields(state: ServerState, instances: nat, completed: nat)

  const INITIAL := Fields(INITIALIZING, 0, 0)

  function OnLog(f: Fields, log: Log): (Fields, Option<ServerState>) {
    match log
    case ServiceStarted =>
      var state := if f.state.readiness == Ready then f.state.(readiness := Indexing) else f.state;
      (f.(instances := f.instances + 1, state := state), Some(state))
    case EnumerationStarted =>
      if f.instances == 0 then (f, None)
      else
        var state := f.state.(readiness := Indexing);
        (f.(completed := Max(f.completed - 1, 0), state := state), Some(state))
    case EnumerationComplete =>
      if f.completed >= f.instances then (f, None)
      else
        var state := if f.completed + 1 == f.instances then f.state.(readiness := Ready) else f.state;
        (f.(completed := f.completed + 1, state := state), Some(state))
    case OtherLog => (f, None)
  }

  class PyrightAdapter {
    var state: ServerState
    var instances: nat
    var completed: nat

    function Contents(): Fields
      reads this
    {
      Fields(state, instances, completed)
    }

    constructor ()
      ensures Contents() == INITIAL
    {
      state, instances, completed := INITIALIZING, 0, 0;
    }

    method Observe(message: string) returns (answer: Option<ServerState>)
      modifies this
      ensures (Contents(), answer) == OnLog(old(Contents()), Read(message))
    {
      if SERVICE_STARTED_PREFIX <= message {
        instances := instances + 1;
        if state.readiness == Ready {
          state := state.(readiness := Indexing);
        }
      } else if message == ENUMERATION_STARTED {
        if instances == 0 {
          return None;
        }
        completed := if completed == 0 then 0 else completed - 1;
        state := state.(readiness := Indexing);
      } else if IsEnumerationComplete(message) {
        if completed >= instances {
          return None;
        }
        completed := completed + 1;
        if completed == instances {
          state := state.(readiness := Ready);
        }
      } else {
        return None;
      }
      answer := Some(state);
    }
  }

  function After(h: seq<Log>): Fields {
    if h == [] then INITIAL else OnLog(After(h[..|h| - 1]), h[|h| - 1]).0
  }

  /** How many service instances the history started. */
  function Started(h: seq<Log>): nat {
    if h == [] then 0 else Started(h[..|h| - 1]) + if h[|h| - 1] == ServiceStarted then 1 else 0
  }

  /** In every run, whatever is logged in whatever order: completions never exceed the started
      instances, ready means that they are equal and positive, and health is never claimed. */
  lemma {:induction false} ReadyWhenAllEnumerated(h: seq<Log>)
    ensures var f := After(h);
      && f.completed <= f.instances == Started(h)
      && (f.state.readiness == Ready <==> f.completed == f.instances > 0)
      && f.state.health == Health.Unknown && f.state.message == None
  {
    if h != [] {
      ReadyWhenAllEnumerated(h[..|h| - 1]);
    }
  }

  // --- Readiness, told by what is logged ----------------------------------------------------

  /** What a log adds to the completed enumerations. */
  function Gain(log: Log): int {
    match log
    case EnumerationComplete => 1
    case EnumerationStarted => -1
    case ServiceStarted => 0
    case OtherLog => 0
  }

  /** Completed enumerations: one up or down with each log, kept between zero and the instances. */
  function Completed(h: seq<Log>): int {
    if h == [] then 0 else
      var c := Completed(h[..|h| - 1]) + Gain(h[|h| - 1]);
      if c < 0 then 0 else if c > Started(h) then Started(h) else c
  }

  predicate AllCompleted(h: seq<Log>) { Completed(h) == Started(h) > 0 }

  /** The log leaves all enumerations completed, or one is started again. */
  predicate MovesOn(before: seq<Log>, log: Log) {
    AllCompleted(before + [log]) || (log == EnumerationStarted && Started(before) > 0)
  }

  predicate Never(before: seq<Log>, log: Log) { false }

  lemma LogStep(f: Fields, log: Log, movedOn: bool)
    requires f.completed <= f.instances
    requires f.state.readiness == if f.completed == f.instances > 0 then Ready else if movedOn then Indexing else Initializing
    requires f.completed == f.instances > 0 ==> movedOn
    ensures var f', c := OnLog(f, log).0, f.completed + Gain(log);
      && f'.instances == f.instances + (if log == ServiceStarted then 1 else 0)
      && f'.completed == (if c < 0 then 0 else if c > f'.instances then f'.instances else c)
      && f'.state.readiness == (if f'.completed == f'.instances > 0 then Ready
                                else if movedOn || (log == EnumerationStarted && f.instances > 0) then Indexing else Initializing)
  {}

  lemma {:induction false} CountersAreLogged(h: seq<Log>)
    ensures var f := After(h);
      && f.completed == Completed(h) && f.instances == Started(h) && f.completed <= f.instances
      && f.state.readiness == (if AllCompleted(h) then Ready else if Since(h, MovesOn, Never) then Indexing else Initializing)
      && (AllCompleted(h) ==> Since(h, MovesOn, Never))
  {
    if h != [] {
      var before, log := h[..|h| - 1], h[|h| - 1];
      CountersAreLogged(before);
      SplitLast(h);
      SinceStep(before, log, MovesOn, Never);
      LogStep(After(before), log, Since(before, MovesOn, Never));
    }
  }

  /** What counts as a completed enumeration is the text for none, or a count between its two parts, of
      one file or of many. */
  lemma CompletionExactly(message: string)
    ensures IsEnumerationComplete(message) <==>
      || message == "No source files found."
      || exists n :: IsCount(n) && (message == "Found " + n + " source file" || message == "Found " + n + " source files")
  {
    if IsEnumerationComplete(message) && message != ENUMERATION_EMPTY {
      var rest := message[|ENUMERATION_FOUND_PREFIX|..];
      var many := StripSuffix(rest, ENUMERATION_FOUND_SUFFIX_MANY);
      var n := if many.Some? then many.value else StripSuffix(rest, ENUMERATION_FOUND_SUFFIX_ONE).value;
      assert message == ENUMERATION_FOUND_PREFIX + n + if many.Some? then ENUMERATION_FOUND_SUFFIX_MANY else ENUMERATION_FOUND_SUFFIX_ONE;
    }
    forall n | IsCount(n) && (message == "Found " + n + " source file" || message == "Found " + n + " source files")
      ensures IsEnumerationComplete(message)
    {
      CountIsRead(n);
    }
  }

  lemma CountIsRead(n: string)
    requires IsCount(n)
    ensures IsEnumerationComplete("Found " + n + " source file") && IsEnumerationComplete("Found " + n + " source files")
  {
    var one, many := n + ENUMERATION_FOUND_SUFFIX_ONE, n + ENUMERATION_FOUND_SUFFIX_MANY;
    assert ("Found " + n + " source file")[|ENUMERATION_FOUND_PREFIX|..] == one;
    assert ("Found " + n + " source files")[|ENUMERATION_FOUND_PREFIX|..] == many;
    assert one[|one| - 1] == 'e' && ENUMERATION_FOUND_SUFFIX_MANY[|ENUMERATION_FOUND_SUFFIX_MANY| - 1] == 's';
    assert one[..|one| - |ENUMERATION_FOUND_SUFFIX_ONE|] == n && many[..|many| - |ENUMERATION_FOUND_SUFFIX_MANY|] == n;
  }

  // --- What lsp-det is told -----------------------------------------------------------------

  /** What the mapping answers, event by event. */
  function Answers(h: seq<Log>): (answers: seq<Option<ServerState>>)
    ensures |answers| == |h|
  {
    if h == [] then [] else Answers(h[..|h| - 1]) + [OnLog(After(h[..|h| - 1]), h[|h| - 1]).1]
  }

  lemma AnswerStep(f: Fields, log: Log)
    ensures OnLog(f, log).0.state == OnLog(f, log).1.GetOr(f.state)
  {}

  lemma AnswersOneMore(h: seq<Log>)
    requires h != []
    ensures Answers(h)[|h| - 1] == OnLog(After(h[..|h| - 1]), h[|h| - 1]).1
  {}

  lemma AfterOneMore(h: seq<Log>)
    requires h != []
    ensures After(h).state == OnLog(After(h[..|h| - 1]), h[|h| - 1]).0.state
  {}

  /** An answer is the state after the event, and where there is none the state is as before. */
  lemma {:induction false} AnswerIsState(h: seq<Log>, i: nat)
    requires i < |h|
    ensures After(h[..i + 1]).state == Answers(h)[i].GetOr(After(h[..i]).state)
  {
    var before := h[..|h| - 1];
    if i < |before| {
      AnswerIsState(before, i);
      assert h[..i + 1] == before[..i + 1] && h[..i] == before[..i] && Answers(h)[i] == Answers(before)[i];
    } else {
      assert h[..i + 1] == h;
      AnswersOneMore(h);
      AfterOneMore(h);
      AnswerStep(After(before), h[|h| - 1]);
    }
  }

  /** After every history, what the tracker holds is the mapping's state. */
  lemma {:induction false} HeardIsState(h: seq<Log>, t: Tracked)
    requires t.mapped && t.state == INITIALIZING
    ensures Hears(t, Answers(h)).state == After(h).state && Hears(t, Answers(h)).mapped
  {
    if h != [] {
      var before, log := h[..|h| - 1], h[|h| - 1];
      HeardIsState(before, t);
      HearsOneMore(t, Answers(before), OnLog(After(before), log).1);
      AnswerStep(After(before), log);
    }
  }

  /** What the tracker goes by after every history, told by the logs alone: ready iff all enumerations are
      completed; else indexing once they have been, or one has started for an instance. */
  lemma HeardExactly(h: seq<Log>, t: Tracked)
    requires t.mapped && t.state == INITIALIZING
    ensures Hears(t, Answers(h)).state == ServerState(Health.Unknown,
              if AllCompleted(h) then Ready else if Since(h, MovesOn, Never) then Indexing else Initializing, None)
  {
    HeardIsState(h, t);
    CountersAreLogged(h);
    ReadyWhenAllEnumerated(h);
  }
}
