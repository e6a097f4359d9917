/** Calls run one after the other are a special case of overlapping calls, so that whatever holds of
    every exclusive run holds of every sequential one. */
module SequentialRuns {
  import opened VaultModel

  /** A call's two halves back to back. */
  function Halves(action: Action): seq<Event> {
    match action
    case Called(request) => [Started(0, request), Committed(0)]
    case Joined(vaultId, userId) => [ContributorAdded(vaultId, userId)]
  }

  function Spread(actions: seq<Action>): seq<Event> {
    if actions == [] then [] else Spread(actions[..|actions| - 1]) + Halves(actions[|actions| - 1])
  }

  lemma RunOneMore(s: Sys, events: seq<Event>, event: Event)
    ensures Run(s, events + [event]) == Step(Run(s, events), event)
  {
    assert (events + [event])[..|events|] == events;
  }

  lemma ExclusiveOneMore(s: Sys, events: seq<Event>, event: Event)
    requires ExclusiveRun(s, events) && Exclusive(Run(s, events + [event]))
    ensures ExclusiveRun(s, events + [event])
  {
    var longer := events + [event];
    forall n | 0 <= n <= |longer|
      ensures Exclusive(Run(s, longer[..n]))
    {
      if n <= |events| { assert longer[..n] == events[..n]; } else { assert longer[..n] == longer; }
    }
  }

  lemma CallInTwoSteps(db: Db, request: Request)
    ensures var started := Step(Sys(db, map[]), Started(0, request));
      Exclusive(started) && Step(started, Committed(0)) == Sys(Act(db, Called(request)), map[])
  {
  }

  /** A call from start to end acts as `Act` says and leaves nothing in flight. */
  lemma HalvesAct(s: Sys, events: seq<Event>, db: Db, action: Action)
    requires ExclusiveRun(s, events) && Run(s, events) == Sys(db, map[])
    ensures Run(s, events + Halves(action)) == Sys(Act(db, action), map[])
    ensures ExclusiveRun(s, events + Halves(action))
  {
    match action
    case Called(request) =>
      var started, committed := Started(0, request), Committed(0);
      CallInTwoSteps(db, request);
      RunOneMore(s, events, started);
      RunOneMore(s, events + [started], committed);
      ExclusiveOneMore(s, events, started);
      ExclusiveOneMore(s, events + [started], committed);
      assert events + Halves(action) == events + [started] + [committed];
    case Joined(vaultId, userId) =>
      RunOneMore(s, events, ContributorAdded(vaultId, userId));
      ExclusiveOneMore(s, events, ContributorAdded(vaultId, userId));
  }

  /** Every sequential run is an exclusive run with the same result. */
  lemma {:induction false} PlayIsAnExclusiveRun(db: Db, actions: seq<Action>)
    ensures Run(Sys(db, map[]), Spread(actions)) == Sys(Play(db, actions), map[])
    ensures ExclusiveRun(Sys(db, map[]), Spread(actions))
  {
    if actions != [] {
      var earlier := actions[..|actions| - 1];
      PlayIsAnExclusiveRun(db, earlier);
      HalvesAct(Sys(db, map[]), Spread(earlier), Play(db, earlier), actions[|actions| - 1]);
    }
  }
}
