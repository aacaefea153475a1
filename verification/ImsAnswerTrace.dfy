/** The commands of answering an IMS call. */
module ImsAnswerTrace {
  import opened CallTypes
  import opened OrderedKeys
  import opened CallTable
  import opened TableTheorems
  import opened ImsSpec
  import opened CsAnswerTrace

  /** Call `a` is the first active one. */
  ghost predicate FirstActive(t: Table, a: int) {
    a in t && t[a].report.state == Active && forall j | j in t && t[j].report.state == Active :: a <= j
  }

  lemma FirstActiveIs(t: Table)
    ensures match FindByState(t, Active)
            case None => forall a | a in t :: t[a].report.state != Active
            case Some(a) => FirstActive(t, a)
  {
    var hits := set a | a in t && t[a].report.state == Active;
    forall a | a in t && t[a].report.state == Active ensures a in hits {}
  }

  /** Call `k` waits behind an active call that is not about to be held. */
  ghost predicate WaitsBehind(t: Table, k: int, a: int)
    requires k in t
  {
    FirstActive(t, a) && !t[a].report.isPendingHold && t[k].report.state == Waiting
  }

  /** One swap is asked, for call `a`; success marks it as about to be held, and no other entry changes. */
  ghost predicate Swapped(s: Control, s': Control, before: Log, a: int, who: CallerInfo, result: Ret)
    requires a in s.table
  {
    && s'.log == before + [Request(Swap(who.slotId, who.videoState), result)]
    && s'.table.Keys == s.table.Keys && (forall j | j in s.table && j != a :: s'.table[j] == s.table[j])
    && s'.table[a].report.isPendingHold == (result == Success)
    && s'.table[a].(report := s.table[a].report) == s.table[a]
    && s'.table[a].report.(isPendingHold := false) == s.table[a].report
  }

  /** What happens to call `k` once there is room; `before` is the log up to then. */
  ghost predicate Taken(s: Control, s': Control, ret: Ret, k: int, before: Log, who: CallerInfo, env: Env)
    requires k in s.table
  {
    var result := env.results(|before|);
    var state := s.table[k].report.state;
    && s'.pending == s.pending && s'.ignored == s.ignored && s'.silent == s.silent
    && (forall a | WaitsBehind(s.table, k, a) :: ret == result && Swapped(s, s', before, a, who, result))
    && ((forall a :: !WaitsBehind(s.table, k, a)) ==>
          && s'.table == s.table
          && if state == Incoming || state == Waiting || state == Alerting
             then ret == result && s'.log == before + [Request(AnswerCommand(
               who.slotId, who.phoneNum, who.videoState, who.index, who.isRtt), result)]
             else ret == CallStateError && s'.log == before)
  }

  lemma TakeCallTrace(s: Control, before: Log, k: int, who: CallerInfo, env: Env)
    requires k in s.table
    ensures var (s', ret) := TakeCall(s.(log := before), k, who, env); Taken(s, s', ret, k, before, who, env)
  {
    FirstActiveIs(s.table);
    var con := FindByState(s.table, Active);
    var (s', ret) := TakeCall(s.(log := before), k, who, env);
    if con.Some? && WaitsBehind(s.table, k, con.value) {
      assert Swapped(s, s', before, con.value, who, env.results(|before|));
      assert forall a | WaitsBehind(s.table, k, a) :: a == con.value;
    }
  }

  /** Answering call `k`: first the held calls are hung up in key order, if there is an active call as well, up to the
      first failure, which ends the answer; then comes one swap iff the call is waiting and the first active call is
      not about to be held, or else one answer iff it is ringing, or else nothing. */
  lemma AnswerCommands(s: Control, who: CallerInfo, env: Env, k: int) returns (hung: seq<Event>, failure: Ret)
    requires FindByIndex(s.table, who.index) == Some(k)
    ensures Step(s, UserAnswer(who), env) == Answer(s, who, env).0
    ensures HungUp(Ims, s.table, ToHangUp(s.table), hung, failure)
    ensures var (s', ret) := Answer(s, who, env);
            if failure != Success then s' == s.(log := s.log + hung) && ret == failure
            else Taken(s, s', ret, k, s.log + hung, who, env)
  {
    hung, failure := ClearHoldingTrace(Ims, s.table, s.log, env);
    TakeCallTrace(s, s.log + hung, k, who, env);
  }

  /** A call that is not there cannot be answered. */
  lemma AnswerNone(s: Control, who: CallerInfo, env: Env)
    requires forall k | k in s.table :: s.table[k].index != who.index
    ensures Answer(s, who, env) == (s, ConnectionNotExist)
  {
    FindNone(s.table, who.index);
  }
}
