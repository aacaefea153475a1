/** What hanging up, rejecting and dialling a CS call send and return. */
module CsCommands {
  import opened CallTypes
  import opened CallTable
  import opened CsSpec
  import opened TableTheorems

  /** The same entries, but for their reasons. */
  ghost predicate OnlyReasons(t: Table, t': Table) {
    t'.Keys == t.Keys && forall k | k in t :: t'[k] == t[k].(reason := t'[k].reason)
  }

  /** At most the reasons and the log change, and the log by `added`. */
  ghost predicate Sends(s: Control, s': Control, added: Log) {
    s' == s.(table := s'.table, log := s.log + added) && OnlyReasons(s.table, s'.table)
  }

  /** Hanging up one call: it is reported as disconnecting, then its hang-up is requested. The other kinds are one
      request each: rejecting all calls, or the supplementary service. What is returned is the result. */
  lemma HangUpCommands(s: Control, who: CallerInfo, kind: SupplementType, env: Env)
    requires Coherent(s.table)
    ensures Step(s, UserHangUp(who, kind), env) == HangUp(s, who, kind, env).0
    ensures var (s', ret) := HangUp(s, who, kind, env);
            var at, later := env.results(|s.log|), env.results(|s.log| + 1);
            match kind
            case TypeDefault =>
              if who.index !in s.table then s' == s && ret == ConnectionNotExist
              else
                && ret == later
                && Sends(s, s', [SingleReport(s.table[who.index].report.(state := Disconnecting)),
                                 Request(HangUpCommand(who.slotId, "", who.index), later)])
            case HangUpAll => ret == at && Sends(s, s', [Request(RejectCommand(who.slotId, "", 0), at)])
            case OtherType => s' == s && ret == ArgumentInvalid
            case _ => ret == at && Sends(s, s', [Request(Supplement(who.slotId, kind), at)])
  {
    FindIsLookup(s.table, who.index);
    FindIsLookup(s.table, who.callId);
  }

  /** Rejecting a ringing call: it is reported as disconnecting, then the rejection is requested. Another call is left
      alone. */
  lemma RejectCommands(s: Control, who: CallerInfo, env: Env)
    requires Coherent(s.table)
    ensures Step(s, UserReject(who), env) == Reject(s, who, env).0
    ensures var (s', ret) := Reject(s, who, env);
            var later := env.results(|s.log| + 1);
            if who.index !in s.table then s' == s && ret == ConnectionNotExist
            else
              var c := s.table[who.index];
              if c.report.state == Incoming || c.report.state == Waiting || c.report.state == Alerting then
                && ret == later
                && Sends(s, s', [SingleReport(c.report.(state := Disconnecting)),
                                 Request(RejectCommand(who.slotId, "", 0), later)])
              else s' == s && ret == CallStateError
  {
    FindIsLookup(s.table, who.index);
  }

  lemma DialBehindActive(s: Control, slot: int, phone: string, clir: ClirMode, env: Env)
    requires |s.table| <= 6 && IsInState(s.table, Active)
    ensures var (s', ret) := Dial(s, slot, phone, clir, false, env);
            var later := env.results(|s.log| + 1);
            && ret == later
            && s' == s.(pending := phone, log := s.log + [
                 Request(Swap(slot, 0), env.results(|s.log|)),
                 Request(DialCommand(slot, DialInfo(phone, clir, 0, false, false)), later)])
  {
    var swap := Request(Swap(slot, 0), env.results(|s.log|));
    var dial := Request(DialCommand(slot, DialInfo(phone, clir, 0, false, false)), env.results(|s.log| + 1));
    assert |s.log + [swap]| == |s.log| + 1;
    assert s.log + [swap] + [dial] == s.log + [swap, dial];
  }

  lemma DialAtOnce(s: Control, slot: int, phone: string, clir: ClirMode, cdma: bool, env: Env)
    requires |s.table| <= 6 && !IsInState(s.table, Active)
    ensures Dial(s, slot, phone, clir, cdma, env)
            == (s.(pending := phone, log := s.log + [
                  Request(DialCommand(slot, DialInfo(phone, clir, 0, false, false)), env.results(|s.log|))]),
                env.results(|s.log|))
  {}

  /** Dialling: with more than six calls it is refused. With an active call, CDMA requests nothing, and otherwise the
      call is asked to swap out first, whose result does not matter. Then the number is dialled and becomes the pending
      one. */
  lemma DialCommands(s: Control, slot: int, phone: string, clir: ClirMode, cdma: bool, env: Env)
    ensures Step(s, UserDial(slot, phone, clir, cdma), env) == Dial(s, slot, phone, clir, cdma, env).0
    ensures var (s', ret) := Dial(s, slot, phone, clir, cdma, env);
            var active := exists k :: k in s.table && s.table[k].report.state == Active;
            var dial := DialCommand(slot, DialInfo(phone, clir, 0, false, false));
            var at, later := env.results(|s.log|), env.results(|s.log| + 1);
            if |s.table| > 6 then s' == s && ret == CountsExceedLimit
            else if active && cdma then s' == s && ret == Success
            else if active then
              ret == later
              && s' == s.(pending := phone, log := s.log + [Request(Swap(slot, 0), at), Request(dial, later)])
            else ret == at && s' == s.(pending := phone, log := s.log + [Request(dial, at)])
  {
    if |s.table| <= 6 {
      if exists k :: k in s.table && s.table[k].report.state == Active {
        assert IsInState(s.table, Active);
        if !cdma { DialBehindActive(s, slot, phone, clir, env); }
      } else {
        DialAtOnce(s, slot, phone, clir, cdma, env);
      }
    }
  }
}
