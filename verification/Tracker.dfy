/** Holding the state and its transitions (src/tracker.rs). What a mapping reads from a message,
    and which mapping a name selects, are answers of code outside this model: every function
    takes them as arbitrary arguments, so that everything proved holds for any mapping. */
module Tracking {
  import opened Wrappers
  import opened ServerStates

  /** The upstream calls itself a name (compared without regard to case, so kept in lower case).
      `starting` is the starting state of the mapping known by that name, if there is one. */
  datatype Announcement = Announcement(name: string, starting: Option<ServerState>)

  datatype Tracked = Tracked(
    state: ServerState,
    mapped: bool,
    identity: Option<string>,
    namedButUnknown: bool)
  {
    /** Without a mapping, nothing is claimed. */
    ghost predicate Valid() {
      && (!mapped ==> state == UNOBSERVED)
      && (identity.Some? <==> mapped)
    }
  }

  const UNTRACKED := Tracked(UNOBSERVED, false, None, false)

  /** Take in a state; returned only when an axis changed. */
  function Apply(t: Tracked, next: ServerState): (Tracked, Option<ServerState>) {
    (t.(state := next), if SameAxes(t.state, next) then None else Some(next))
  }

  function Adopt(t: Tracked, who: Announcement): (Tracked, Option<ServerState>) {
    match who.starting
    case None => (t, None)
    case Some(starting) => (t.(state := starting, mapped := true, identity := Some(who.name)), Some(starting))
  }

  function SelectMapping(t: Tracked, who: Option<Announcement>): (Tracked, Option<ServerState>) {
    match who
    case None => (t, None)
    case Some(a) =>
      var t := if !t.mapped && a.starting.None? then t.(namedButUnknown := true) else t;
      if t.identity == Some(a.name) then (t, Some(t.state)) else Adopt(t, a)
  }

  /** `answer` is what the mapping reads from the client's message, if it is asked. */
  function ObserveClient(t: Tracked, answer: Option<ServerState>): (Tracked, Option<ServerState>) {
    if !t.mapped || answer.None? then (t, None) else Apply(t, answer.value)
  }

  /** `who` is the announcement in the upstream's message, if it is one; `answer` is what the
      mapping (after an announcement: the one just selected) reads from it. */
  function ObserveUpstream(t: Tracked, who: Option<Announcement>, answer: Option<ServerState>): (Tracked, Option<ServerState>) {
    if t.mapped then (if answer.None? then (t, None) else Apply(t, answer.value))
    else if who.None? || who.value.starting.None? then (t, None)
    else
      var adopted := Adopt(t, who.value).0;
      if answer.None? then (adopted, None) else Apply(adopted, answer.value)
  }

  class Tracker {
    var state: ServerState
    var mapped: bool
    var identity: Option<string>
    var namedButUnknown: bool

    function Contents(): Tracked
      reads this
    {
      Tracked(state, mapped, identity, namedButUnknown)
    }

    constructor ()
      ensures Contents() == UNTRACKED
    {
      state, mapped, identity, namedButUnknown := UNOBSERVED, false, None, false;
    }

    method Take(next: ServerState) returns (notifiable: Option<ServerState>)
      modifies this
      ensures (Contents(), notifiable) == Apply(old(Contents()), next)
    {
      notifiable := if next.health != state.health || next.readiness != state.readiness then Some(next) else None;
      state := next;
    }

    method AdoptMapping(who: Announcement) returns (started: Option<ServerState>)
      modifies this
      ensures (Contents(), started) == Adopt(old(Contents()), who)
    {
      if who.starting.None? {
        return None;
      }
      state := who.starting.value;
      mapped := true;
      identity := Some(who.name);
      started := Some(state);
    }

    method Select(who: Option<Announcement>) returns (started: Option<ServerState>)
      modifies this
      ensures (Contents(), started) == SelectMapping(old(Contents()), who)
    {
      if who.None? {
        return None;
      }
      if !mapped && who.value.starting.None? {
        namedButUnknown := true;
      }
      if identity.Some? && identity.value == who.value.name {
        return Some(state);
      }
      started := AdoptMapping(who.value);
    }

    method OnClient(answer: Option<ServerState>) returns (notifiable: Option<ServerState>)
      modifies this
      ensures (Contents(), notifiable) == ObserveClient(old(Contents()), answer)
    {
      if !mapped || answer.None? {
        return None;
      }
      notifiable := Take(answer.value);
    }

    method OnUpstream(who: Option<Announcement>, answer: Option<ServerState>) returns (notifiable: Option<ServerState>)
      modifies this
      ensures (Contents(), notifiable) == ObserveUpstream(old(Contents()), who, answer)
    {
      if !mapped {
        if who.None? {
          return None;
        }
        var started := AdoptMapping(who.value);
        if started.None? {
          return None;
        }
      }
      if answer.None? {
        return None;
      }
      notifiable := Take(answer.value);
    }
  }
}
