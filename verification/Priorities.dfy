/** When sources may be given new priorities without rewriting the leads built from their records. */
module Priorities {
  import Fingerprint
  import opened Store
  import opened Pipeline
  import opened Ownership
  import opened Derivation
  import opened Joining

  ghost predicate SameOrder(before: map<nat, Source>, after: map<nat, Source>)
    requires before.Keys <= after.Keys
  {
    forall a, b | a in before && b in before ::
      before[a].priority < before[b].priority <==> after[a].priority < after[b].priority
  }

  /** Any sources can be configured. */
  lemma {:induction false} ConfiguringReaches(env: Env, sources: map<nat, Source>) returns (history: seq<Event>)
    ensures Exec(EMPTY_STORE, env, history) == EMPTY_STORE.(sources := sources)
    decreases |sources|
  {
    history := [];
    if sources != map[] {
      var k :| k in sources;
      var others := sources - {k};
      Fingerprint.SubsetIsNoLarger(others.Keys, sources.Keys);
      assert k !in others.Keys && |others| == |others.Keys| && |sources| == |sources.Keys|;
      var init := ConfiguringReaches(env, others);
      history := init + [Configure(k, sources[k])];
      assert history[..|history| - 1] == init;
      assert others[k := sources[k]] == sources;
    }
  }

  /** A history ends with two records of any two sources in one lead. */
  lemma PairIsReachable(s: Setup) returns (history: seq<Event>)
    requires Fits(s)
    ensures Exec(EMPTY_STORE, s.env, history) == AfterSecond(s)
  {
    hide ItemDb, Exec;
    var init := ConfiguringReaches(s.env, s.sources);
    var first := Process(RunFor(s, s.a), Incoming(First(s), NoFault));
    var second := Process(RunFor(s, s.b), Incoming(Second(s), NoFault));
    OneMore(EMPTY_STORE, s.env, init, first);
    OneMore(EMPTY_STORE, s.env, init + [first], second);
    history := init + [first] + [second];
  }

  lemma OneMore(db: Db, env: Env, history: seq<Event>, event: Event)
    ensures Exec(db, env, history + [event]) == Exec1(Exec(db, env, history), env, event)
  {
    assert (history + [event])[..|history + [event]| - 1] == history;
  }

  /** In every reachable store new priorities leave every lead the merge of its records: nothing is rewritten. */
  ghost predicate AlwaysSafe(env: Env, before: map<nat, Source>, after: map<nat, Source>) {
    forall history ::
      var db := Exec(EMPTY_STORE, env, history);
      Sound(db) && db.sources == before && AllDerived(db, env) ==> AllDerived(db.(sources := after), env)
  }

  /** That is so exactly when the new priorities order the sources as the old ones did. */
  lemma ReconfiguringIsSafeExactlyWhenOrderIsKept(env: Env, before: map<nat, Source>, after: map<nat, Source>)
    requires before.Keys <= after.Keys
    ensures AlwaysSafe(env, before, after) <==> SameOrder(before, after)
  {
    hide Sound, Derived, Exec, AfterSecond;
    if SameOrder(before, after) {
      forall history | Sound(Exec(EMPTY_STORE, env, history)) && Exec(EMPTY_STORE, env, history).sources == before &&
        AllDerived(Exec(EMPTY_STORE, env, history), env)
        ensures AllDerived(Exec(EMPTY_STORE, env, history).(sources := after), env)
      {
        SamePriorityOrderKeepsDerived(Exec(EMPTY_STORE, env, history), env, after);
      }
    } else {
      var a, b :| a in before && b in before &&
        (before[a].priority < before[b].priority) != (after[a].priority < after[b].priority);
      var s := Setup(env, before, a, b, 1, 0);
      var history := PairIsReachable(s);
      SecondIsCollected(s);
      var db := AfterSecond(s);
      assert db.(sources := before) == db;
      JoinedShows(db, s, before);
      if Derived(db.(sources := after), env, 1) {
        JoinedShows(db, s, after);
      }
    }
  }
}
