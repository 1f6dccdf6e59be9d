/** What the machine of CamLatch comes to for those who call on the CAM. */
module CamCalls {
  import opened Bytes
  import opened Cam
  import opened CamLatch

  /** In every run every commit puts in the dword of its own thread. */
  lemma CommitsOwn(mem: Memory, es: seq<Event>, s: State, t: nat)
    requires s == Run(Init(mem), es) && Enabled(s, Land(t, Done)) && s.works[t].phase.Commit?
    ensures var op, k := s.works[t].ops[0], s.works[t].k;
            Step(s, Land(t, Done)).mem == s.mem[Addr(op, k) := Value(op, k)]
  {
    RunOrderly(mem, Init(mem), es);
  }

  /** In every run the operations take effect as whole calls, one after the other in the order they began, up
      to what the call going on has left; and whenever none is, each slot shows the last operation that touched
      it, if that was carried out in full. */
  lemma CallsAreAtomic(mem: Memory, es: seq<Event>, slot: nat)
    requires slot < SLOTS
    ensures var s := Run(Init(mem), es);
            && Happened(s.effects) <= InTurn(s.calls) && ValidEffects(s.effects)
            && (Holder(s).None? ==>
                  Happened(s.effects) == InTurn(s.calls)
                  && Shows(Decode(s.mem, slot), LastOn(s.effects, slot), Decode(mem, slot)))
  {
    RunOrderly(mem, Init(mem), es);
    AppliedShows(mem, Run(Init(mem), es).effects, slot);
  }

  /** While a thread's call is going on, nothing another thread does begins a call or reaches the CAM. */
  lemma NobodyBetween(mem: Memory, es: seq<Event>, s: State, t: nat, e: Event)
    requires s == Run(Init(mem), es) && t in s.works && s.works[t].begun && Enabled(s, e) && e.t != t
    ensures var u := Step(s, e);
            u.calls == s.calls && u.effects == s.effects && u.latch == s.latch && u.mem == s.mem
  {
    RunOrderly(mem, Init(mem), es);
  }
}
