/** States that some run of the interleaving machine reaches. */
module Reachability {
  import opened Common
  import opened Tables
  import opened Transactions
  import opened CommitLog
  import opened Serializability

  ghost predicate Reaches(s: State, s': State) {
    exists actions :: CanRun(s, actions) && Run(s, actions) == s'
  }

  lemma {:induction false} RunOneMore(s: State, actions: seq<Action>, a: Action)
    requires CanRun(s, actions) && Can(Run(s, actions), a)
    ensures CanRun(s, actions + [a]) && Run(s, actions + [a]) == Do(Run(s, actions), a)
    decreases |actions|
  {
    hide Can, Do;
    if actions == [] {
      assert actions + [a] == [a] && [a][1..] == [];
      assert CanRun(Do(s, a), []);
    } else {
      assert (actions + [a])[1..] == actions[1..] + [a];
      RunOneMore(Do(s, actions[0]), actions[1..], a);
    }
  }

  /** The state one action later. */
  lemma Next(s: State, s': State, a: Action) returns (s'': State)
    requires Reaches(s, s') && Can(s', a)
    ensures s'' == Do(s', a) && Reaches(s, s'')
  {
    hide Can, Do, CanRun, Run;
    var actions :| CanRun(s, actions) && Run(s, actions) == s';
    RunOneMore(s, actions, a);
    s'' := Do(s', a);
  }

  lemma ReachesItself(s: State)
    ensures Reaches(s, s)
  {
    assert CanRun(s, []) && Run(s, []) == s;
  }

  lemma ReachableIsOk(s: State, s': State)
    requires Init(s) && Reaches(s, s')
    ensures Inv(s') && Replay(s.db, Ops(s'.log)) == Some(s'.db)
  {
    var actions :| CanRun(s, actions) && Run(s, actions) == s';
    Serializable(s, actions);
  }
}
