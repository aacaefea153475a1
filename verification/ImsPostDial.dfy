/** Post-dial over runs of an IMS control. */
module ImsPostDial {
  import opened CallTypes
  import opened PostDial
  import opened CallTable
  import opened Encapsulation
  import opened ImsSpec
  import opened TableTheorems
  import opened ImsTheorems
  import opened ImsHoldDial
  import opened PostDialRuns
  import opened Attribution

  lemma SnapshotPlays(s: Control, e: ImsEvent, env: Env, k: int)
    requires Steady(s.table) && e.Snapshot?
    requires k in s.table && k in Step(s, e, env).table && s.table[k].postDial.next <= |s.table[k].postDial.text|
    ensures Played(s.table[k].postDial, Step(s, e, env).table[k].postDial, s.log, Step(s, e, env).log, k, env.handler)
  {
    if e.isNeedQuery {
      PlayedFrame(s.table[k].postDial, s.table[k].postDial, s.log, Step(s, e, env).log, k);
    } else {
      UpdatePlays(Ims, s, e.slot, Promote(ImsListed(e.slot, e.list.calls)), env, k);
    }
  }

  lemma StepPlays(s: Control, e: ImsEvent, env: Env, k: int)
    requires Steady(s.table)
    requires k in s.table && k in Step(s, e, env).table && s.table[k].postDial.next <= |s.table[k].postDial.text|
    ensures Played(s.table[k].postDial, Step(s, e, env).table[k].postDial, s.log, Step(s, e, env).log, k, env.handler)
  {
    match e
    case Snapshot(_, _, _) => SnapshotPlays(s, e, env, k);
    case PostDialTimer(slot, id) => ExecutePlays(s, slot, id, env, k);
    case UserProceed(who, proceed) => ProceedPlays(s, who, proceed, env, k);
    case Restarted(infos, slot) =>
      PlayedFrame(s.table[k].postDial, s.table[k].postDial, s.log, Step(s, e, env).log, k);
    case Restore(infos, slot) =>
      RestoreAdds(s.table, infos, slot);
      PlayedFrame(s.table[k].postDial, s.table[k].postDial, s.log, s.log, k);
    case Release =>
    case SilentCsRedial(_) => PlayedFrame(s.table[k].postDial, s.table[k].postDial, s.log, s.log, k);
    case _ =>
      UserOperationsStep(s, e, env);
      UserStepPlays(s, Step(s, e, env), k);
  }

  /** Over any run that connection `k` survives, whatever drives it and in whatever order, the DTMF keys requested for
      it are exactly those of the characters its cursor passed over, each once and in order, with one timer per
      pause while a handler is there; and once cancelled it never plays again. */
  lemma {:induction false} PostDialExactlyOnce(s: Control, run: Run, k: int)
    requires Steady(s.table) && Alive(s, run, Step, k)
    requires s.table[k].postDial.next <= |s.table[k].postDial.text|
    ensures k in After(s, run).table
    ensures Played(s.table[k].postDial, After(s, run).table[k].postDial, s.log, After(s, run).log, k,
                   HandlersPresent(run))
    decreases run
  {
    var pd := s.table[k].postDial;
    if run == [] {
      PlayedFrame(pd, pd, s.log, s.log, k);
    } else {
      var (e, env) := run[0];
      var s1 := Step(s, e, env);
      StepSteady(s, e, env);
      StepPlays(s, e, env, k);
      PostDialExactlyOnce(s1, run[1..], k);
      var s' := After(s1, run[1..]);
      PlayedCompose(pd, s1.table[k].postDial, s'.table[k].postDial, s.log, s1.log, s'.log, k,
                    env.handler, HandlersPresent(run[1..]));
      assert HandlersPresent(run) ==> env.handler && HandlersPresent(run[1..]);
    }
  }

  /** A timer, and a user who lets it proceed, step the call they are for by one character. */
  lemma DrivenStep(s: Control, slot: int, who: CallerInfo, env: Env)
    requires Steady(s.table) && who.index in s.table
    ensures Stepped(s, Step(s, PostDialTimer(slot, who.index), env), slot, who.index, env)
    ensures Stepped(s, Step(s, UserProceed(who, true), env), who.slotId, who.index, env)
  {
    TimerSteps(s, slot, who.index, env);
    ProceedSteps(s, who, env);
  }

  /** After a refusal, whatever happens as long as the call is there: its cursor stays, no key is requested and no timer
      is started for it. */
  lemma RefusedNeverPlays(s: Control, who: CallerInfo, env: Env, run: Run)
    requires Steady(s.table) && who.index in s.table
    requires Alive(Step(s, UserProceed(who, false), env), run, Step, who.index)
    requires s.table[who.index].postDial.next <= |s.table[who.index].postDial.text|
    ensures var k, s' := who.index, After(Step(s, UserProceed(who, false), env), run);
            && k in s'.table && s'.table[k].postDial.state == Canceled
            && s'.table[k].postDial.next == s.table[k].postDial.next
            && DtmfFor(s'.log, k) == DtmfFor(s.log, k) && TimersFor(s'.log, k) == TimersFor(s.log, k)
  {
    var k, s1 := who.index, Step(s, UserProceed(who, false), env);
    RefusalCancels(s, who, env);
    assert s1 == PostDialProceed(s, who, false, env).0;
    StepSteady(s, UserProceed(who, false), env);
    PostDialExactlyOnce(s1, run, k);
    CanceledStays(s1.table[k].postDial, After(s1, run).table[k].postDial, s1.log, After(s1, run).log, k,
                  HandlersPresent(run));
  }
}
