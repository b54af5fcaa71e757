/** `$/progress` notifications, and the list of tokens that have begun and await their end. */
module Progresses {
  import opened Wrappers
  import opened Jsons
  import opened Histories

  /** A token is any JSON value; it is only compared. */
  type Token = Json

  datatype Kind = Begin | Report | End | OtherKind

  datatype Progress = Progress(token: Token, kind: Kind, title: Option<string>, message: Option<string>)

  predicate EndsWith(text: string, suffix: string) {
    |suffix| <= |text| && text[|text| - |suffix|..] == suffix
  }

  /** The position of the first `t`, or the length of the list. */
  function IndexOf(open: seq<Token>, t: Token): (i: nat)
    ensures i <= |open|
    ensures i < |open| ==> open[i] == t
    ensures t !in open[..i]
    ensures i == |open| <==> t !in open
  {
    if open == [] || open[0] == t then 0 else 1 + IndexOf(open[1..], t)
  }

  function Without<T>(open: seq<T>, i: nat): seq<T>
    requires i < |open|
  {
    open[..i] + open[i + 1..]
  }

  /** The list after an end of `t`: the first `t` removed, if there is one. */
  function Ended(open: seq<Token>, t: Token): seq<Token> {
    var i := IndexOf(open, t);
    if i < |open| then Without(open, i) else open
  }

  function Count(open: seq<Token>, t: Token): nat {
    multiset(open)[t]
  }

  function One(b: bool): int { if b then 1 else 0 }

  lemma CountPushed(open: seq<Token>, x: Token, t: Token)
    ensures Count(open + [x], t) == Count(open, t) + One(x == t)
  {}

  /** An open token with the phase its begin announced. */
  datatype Phased<P> = Phased(token: Token, phase: P)

  function TokensOf<P>(open: seq<Phased<P>>): seq<Token> {
    seq(|open|, i requires 0 <= i < |open| => open[i].token)
  }

  lemma TokensPushed<P>(open: seq<Phased<P>>, x: Phased<P>)
    ensures TokensOf(open + [x]) == TokensOf(open) + [x.token]
  {}

  lemma TokensWithout<P>(open: seq<Phased<P>>, i: nat)
    requires i < |open|
    ensures TokensOf(Without(open, i)) == Without(TokensOf(open), i)
  {}

  /** The position an end of `t` takes an entry from, searched as the mappings do. */
  method Position(open: seq<Token>, t: Token) returns (i: nat)
    ensures i == IndexOf(open, t)
  {
    i := 0;
    while i < |open| && open[i] != t
      invariant i <= |open|
      invariant IndexOf(open, t) == i + IndexOf(open[i..], t)
    {
      i := i + 1;
    }
  }
}
