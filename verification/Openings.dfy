/** What is open after a history of begins and ends: the list that the mappings keep, and what it
    has to agree with. An end takes the oldest entry of its token. */
module Openings {
  import opened Wrappers
  import opened Histories
  import opened Progresses

  /** What an event means to the list: a begin with the phase it announces, an end, or nothing. */
  datatype Mark<+P> = Begins(token: Token, phase: P) | Ends(token: Token) | Neither

  // --- From the history ---------------------------------------------------------------------

  function StepOf<P>(m: Mark<P>, t: Token): int {
    match m
    case Begins(token, _) => One(token == t)
    case Ends(token) => -One(token == t)
    case Neither => 0
  }

  function Steps<P>(marks: seq<Mark<P>>, t: Token): (d: seq<int>) {
    seq(|marks|, i requires 0 <= i < |marks| => StepOf(marks[i], t))
  }

  /** How many of the token are open: the excess of begins over ends, floored at zero. */
  function Open<P>(marks: seq<Mark<P>>, t: Token): nat {
    if marks == [] then 0
    else
      var n := |marks| - 1;
      Max(0, Open(marks[..n], t) + StepOf(marks[n], t))
  }

  ghost predicate NoneOpen<P>(marks: seq<Mark<P>>) { forall t :: Open(marks, t) == 0 }

  /** The phases that the begins of the token announced, in order. */
  function Begun<P>(marks: seq<Mark<P>>, t: Token): seq<P> {
    if marks == [] then []
    else
      var n := |marks| - 1;
      Begun(marks[..n], t) + BegunBy(marks[n], t)
  }

  function BegunBy<P>(m: Mark<P>, t: Token): seq<P> {
    if m.Begins? && m.token == t then [m.phase] else []
  }

  /** The phases of the begins that are open: of the last ones, as many as are open. */
  function StillBegun<P>(marks: seq<Mark<P>>, t: Token): (phases: seq<P>)
    ensures |phases| == Open(marks, t)
  {
    OpenIsBounded(marks, t);
    Begun(marks, t)[|Begun(marks, t)| - Open(marks, t)..]
  }

  /** The phase an end ends: that of the begin of its token with one less than the open number of
      begins after it. */
  function EndedPhase<P>(before: seq<Mark<P>>, m: Mark<P>): Option<P> {
    if !m.Ends? || Open(before, m.token) == 0 then None else Some(StillBegun(before, m.token)[0])
  }

  lemma {:induction false} OpenIsBounded<P>(marks: seq<Mark<P>>, t: Token)
    ensures Open(marks, t) <= |Begun(marks, t)|
  {
    if marks != [] {
      OpenIsBounded(marks[..|marks| - 1], t);
    }
  }

  lemma {:induction false} OpenIsFloored<P>(marks: seq<Mark<P>>, t: Token)
    ensures Open(marks, t) == Floored(Steps(marks, t))
  {
    if marks != [] {
      var n := |marks| - 1;
      OpenIsFloored(marks[..n], t);
      assert Steps(marks, t)[..n] == Steps(marks[..n], t);
    }
  }

  /** The number open is the greatest excess of begins over ends that a suffix of the history has. */
  lemma OpenIsGreatestExcess<P>(marks: seq<Mark<P>>, t: Token)
    ensures IsGreatestSuffixSum(Steps(marks, t), Open(marks, t))
  {
    OpenIsFloored(marks, t);
    FlooredIsGreatestSuffixSum(Steps(marks, t));
  }

  // --- The list -----------------------------------------------------------------------------

  function Marked<P>(open: seq<Phased<P>>, m: Mark<P>): seq<Phased<P>> {
    match m
    case Begins(token, phase) => open + [Phased(token, phase)]
    case Ends(token) =>
      var i := IndexOf(TokensOf(open), token);
      if i < |open| then Without(open, i) else open
    case Neither => open
  }

  function OpenList<P>(marks: seq<Mark<P>>): seq<Phased<P>> {
    if marks == [] then [] else Marked(OpenList(marks[..|marks| - 1]), marks[|marks| - 1])
  }

  /** The phases of the entries of a token, in order. */
  function PhasesOf<P>(open: seq<Phased<P>>, t: Token): seq<P> {
    if open == [] then []
    else
      var n := |open| - 1;
      PhasesOf(open[..n], t) + PhaseOf(open[n], t)
  }

  function PhaseOf<P>(x: Phased<P>, t: Token): seq<P> { if x.token == t then [x.phase] else [] }

  lemma PhasesPushed<P>(open: seq<Phased<P>>, x: Phased<P>, t: Token)
    ensures PhasesOf(open + [x], t) == PhasesOf(open, t) + PhaseOf(x, t)
  {
    assert (open + [x])[..|open|] == open;
  }

  lemma {:induction false} PhasesConcat<P>(a: seq<Phased<P>>, b: seq<Phased<P>>, t: Token)
    ensures PhasesOf(a + b, t) == PhasesOf(a, t) + PhasesOf(b, t)
  {
    if b == [] {
      assert a + b == a;
    } else {
      var n := |b| - 1;
      PhasesConcat(a, b[..n], t);
      assert a + b == (a + b[..n]) + [b[n]];
      PhasesPushed(a + b[..n], b[n], t);
      Associative(PhasesOf(a, t), PhasesOf(b[..n], t), PhaseOf(b[n], t));
    }
  }

  lemma Associative<T>(a: seq<T>, b: seq<T>, c: seq<T>)
    ensures a + (b + c) == a + b + c
  {}

  lemma {:induction false} NoPhases<P>(open: seq<Phased<P>>, t: Token)
    ensures PhasesOf(open, t) == [] <==> t !in TokensOf(open)
  {
    if open != [] {
      var n := |open| - 1;
      NoPhases(open[..n], t);
      assert open == open[..n] + [open[n]];
      TokensPushed(open[..n], open[n]);
    }
  }

  lemma PhasesWithoutFirst<P>(open: seq<Phased<P>>, i: nat, t: Token)
    requires i < |open| && open[i].token !in TokensOf(open)[..i]
    ensures PhasesOf(open, t) == PhaseOf(open[i], t) + PhasesOf(Without(open, i), t)
  {
    assert TokensOf(open[..i]) == TokensOf(open)[..i];
    assert open == open[..i] + [open[i]] + open[i + 1..];
    FirstPhase(open[..i], open[i], open[i + 1..], t);
  }

  lemma FirstPhase<P>(a: seq<Phased<P>>, x: Phased<P>, b: seq<Phased<P>>, t: Token)
    requires x.token !in TokensOf(a)
    ensures PhasesOf(a + [x] + b, t) == PhaseOf(x, t) + PhasesOf(a + b, t)
  {
    PhasesBetween(a, x, b, t);
    var p, q := PhasesOf(a, t), PhasesOf(b, t);
    if x.token == t {
      NoPhases(a, t);
      assert [] + PhaseOf(x, t) + q == PhaseOf(x, t) + ([] + q);
    } else {
      assert p + [] + q == [] + (p + q);
    }
  }

  lemma PhasesBetween<P>(a: seq<Phased<P>>, x: Phased<P>, b: seq<Phased<P>>, t: Token)
    ensures PhasesOf(a + [x] + b, t) == PhasesOf(a, t) + PhaseOf(x, t) + PhasesOf(b, t)
    ensures PhasesOf(a + b, t) == PhasesOf(a, t) + PhasesOf(b, t)
  {
    PhasesConcat(a + [x], b, t);
    PhasesPushed(a, x, t);
    PhasesConcat(a, b, t);
  }

  lemma PhasesMarked<P>(open: seq<Phased<P>>, m: Mark<P>, t: Token)
    ensures PhasesOf(Marked(open, m), t) == StillAfter(PhasesOf(open, t), m, t)
  {
    match m
    case Neither =>
    case Begins(token, phase) => PhasesPushed(open, Phased(token, phase), t);
    case Ends(token) =>
      NoPhases(open, t);
      var i := IndexOf(TokensOf(open), token);
      if i < |open| {
        PhasesWithoutFirst(open, i, t);
      }
  }

  /** What is still begun after one more mark. */
  function StillAfter<P>(still: seq<P>, m: Mark<P>, t: Token): seq<P> {
    if m.Begins? && m.token == t then still + [m.phase]
    else if m.Ends? && m.token == t && still != [] then still[1..]
    else still
  }

  lemma LastOnes<P>(begun: seq<P>, open: nat, m: Mark<P>, t: Token, begun': seq<P>, open': nat)
    requires open <= |begun| && begun' == begun + BegunBy(m, t) && open' == Max(0, open + StepOf(m, t))
    ensures open' <= |begun'| && begun'[|begun'| - open'..] == StillAfter(begun[|begun| - open..], m, t)
  {
    if !(m.Begins? && m.token == t) {
      assert begun' == begun;
    }
  }

  lemma StillBegunMarked<P>(marks: seq<Mark<P>>, t: Token)
    requires marks != []
    ensures StillBegun(marks, t) == StillAfter(StillBegun(marks[..|marks| - 1], t), marks[|marks| - 1], t)
  {
    var before, m := marks[..|marks| - 1], marks[|marks| - 1];
    OpenIsBounded(before, t);
    LastOnes(Begun(before, t), Open(before, t), m, t, Begun(marks, t), Open(marks, t));
  }

  /** The entries of a token carry the phases of its last begins, as many as are open. */
  lemma {:induction false} ListIsStillBegun<P>(marks: seq<Mark<P>>, t: Token)
    ensures PhasesOf(OpenList(marks), t) == StillBegun(marks, t)
  {
    if marks != [] {
      var n := |marks| - 1;
      ListIsStillBegun(marks[..n], t);
      PhasesMarked(OpenList(marks[..n]), marks[n], t);
      StillBegunMarked(marks, t);
    }
  }

  /** The list is empty exactly when nothing is open. */
  lemma ListIsEmptyExactly<P>(marks: seq<Mark<P>>)
    ensures OpenList(marks) == [] <==> NoneOpen(marks)
  {
    var open := OpenList(marks);
    forall t ensures Open(marks, t) == |PhasesOf(open, t)| {
      ListIsStillBegun(marks, t);
      OpenIsBounded(marks, t);
    }
    if open != [] {
      NoPhases(open, open[0].token);
      assert TokensOf(open)[0] == open[0].token;
    }
  }

  /** The entry that an end takes carries the phase it ends. */
  lemma EndedIsOldest<P>(before: seq<Mark<P>>, m: Mark<P>)
    requires m.Ends?
    ensures var open := OpenList(before);
      var i := IndexOf(TokensOf(open), m.token);
      EndedPhase(before, m) == if i < |open| then Some(open[i].phase) else None
  {
    var open := OpenList(before);
    var i := IndexOf(TokensOf(open), m.token);
    ListIsStillBegun(before, m.token);
    OpenIsBounded(before, m.token);
    NoPhases(open, m.token);
    if i < |open| {
      PhasesWithoutFirst(open, i, m.token);
    }
  }

  // --- A list of tokens alone ---------------------------------------------------------------

  function TokensMarked<P>(open: seq<Token>, m: Mark<P>): seq<Token> {
    match m
    case Begins(token, _) => open + [token]
    case Ends(token) => Ended(open, token)
    case Neither => open
  }

  function OpenTokens<P>(marks: seq<Mark<P>>): seq<Token> { TokensOf(OpenList(marks)) }

  lemma OpenTokensStep<P>(marks: seq<Mark<P>>)
    requires marks != []
    ensures OpenTokens(marks) == TokensMarked(OpenTokens(marks[..|marks| - 1]), marks[|marks| - 1])
  {
    var open, m := OpenList(marks[..|marks| - 1]), marks[|marks| - 1];
    match m
    case Neither =>
    case Begins(token, phase) => TokensPushed(open, Phased(token, phase));
    case Ends(token) =>
      var i := IndexOf(TokensOf(open), token);
      if i < |open| {
        TokensWithout(open, i);
      }
  }

  lemma {:induction false} CountIsPhases<P>(open: seq<Phased<P>>, t: Token)
    ensures Count(TokensOf(open), t) == |PhasesOf(open, t)|
  {
    if open != [] {
      var n := |open| - 1;
      CountIsPhases(open[..n], t);
      assert open == open[..n] + [open[n]];
      TokensPushed(open[..n], open[n]);
      CountPushed(TokensOf(open[..n]), open[n].token, t);
    }
  }

  /** Each token is in the list as often as it is open, and none is exactly when nothing is. */
  lemma TokensAreOpen<P>(marks: seq<Mark<P>>, t: Token)
    ensures Count(OpenTokens(marks), t) == Open(marks, t)
    ensures OpenTokens(marks) == [] <==> NoneOpen(marks)
  {
    CountIsPhases(OpenList(marks), t);
    ListIsStillBegun(marks, t);
    OpenIsBounded(marks, t);
    ListIsEmptyExactly(marks);
  }
}
