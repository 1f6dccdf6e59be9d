/** Several callers of the H2C mailbox. A call reads the next box before its first EP0 access, for which it may
    have to sleep; from that access on the endpoint is its own until the call ends (CamCalls says why). */
module H2cCalls {
  import opened Bytes
  import H = H2c

  /** Polling, past the poll, or with the extension written. */
  datatype Stage = Asked | Free | ExtIn

  /** box: the box the call read when it began. */
  datatype Call = Call(cmd: H.Cmd, box: nat, stage: Stage)

  /** active: the call that has started its accesses. */
  datatype State = State(next: nat, calls: map<nat, Call>, active: Option<nat>, dev: H.Device,
                         accepted: seq<H.Cmd>, delivered: seq<H.Cmd>)

  datatype Event =
    | Begin(t: nat, cmd: H.Cmd)
    | Poll(t: nat)
    | WriteExt(t: nat)
    | WriteMsg(t: nat)
    | GiveUp(t: nat)
    | Serve

  /** The mailbox as the single-caller model has it, between two calls. */
  function Plain(s: State): H.State {
    H.State(s.next, H.Idle, s.dev, s.accepted, s.delivered)
  }

  ghost predicate InOrder(s: State) {
    H.Mailbox(Plain(s))
  }

  predicate Bounded(s: State) {
    H.Shape(s.dev) && s.next < H.BOXES && forall t :: t in s.calls ==> s.calls[t].box < H.BOXES
  }

  predicate Turn(s: State, t: nat) {
    t in s.calls && (s.active.None? || s.active == Some(t))
  }

  predicate Enabled(s: State, e: Event) {
    match e
    case Begin(t, _) => t !in s.calls
    case Poll(t) => Turn(s, t) && s.calls[t].stage.Asked?
    case WriteExt(t) => Turn(s, t) && s.calls[t].stage.Free?
    case WriteMsg(t) => Turn(s, t) && s.calls[t].stage.ExtIn?
    case GiveUp(t) => Turn(s, t)
    case Serve => true
  }

  function Step(s: State, e: Event): (u: State)
    requires Bounded(s) && Enabled(s, e)
    ensures Bounded(u)
  {
    match e
    case Begin(t, cmd) => s.(calls := s.calls[t := Call(cmd, s.next, Asked)])
    case Poll(t) =>
      var c := s.calls[t];
      s.(active := Some(t), calls := if s.dev.armed[c.box] then s.calls else s.calls[t := c.(stage := Free)])
    case WriteExt(t) =>
      var c := s.calls[t];
      s.(dev := s.dev.(ext := s.dev.ext[c.box := c.cmd.ext]), calls := s.calls[t := c.(stage := ExtIn)])
    case WriteMsg(t) =>
      var c := s.calls[t];
      s.(dev := H.Armed(s.dev, c.box, c.cmd.msg), next := H.After(s.next), accepted := s.accepted + [c.cmd],
         calls := s.calls - {t}, active := None)
    case GiveUp(t) => s.(calls := s.calls - {t}, active := None)
    case Serve =>
      var p := H.Served(Plain(s));
      s.(dev := p.dev, delivered := p.delivered)
  }

  function Next(s: State, e: Event): (u: State)
    requires Bounded(s)
    ensures Bounded(u)
  {
    if Enabled(s, e) then Step(s, e) else s
  }

  function Run(s: State, es: seq<Event>): (u: State)
    requires Bounded(s)
    ensures Bounded(u)
    decreases es
  {
    if es == [] then s else Run(Next(s, es[0]), es[1..])
  }

  // ---- one step ----

  /** Past the poll there is only the active call, its box free and then with its extension. */
  predicate PastPoll(s: State)
    requires Bounded(s)
  {
    && (s.active.Some? ==> s.active.value in s.calls)
    && forall t :: t in s.calls && !s.calls[t].stage.Asked? ==>
         && s.active == Some(t) && !s.dev.armed[s.calls[t].box]
         && (s.calls[t].stage.ExtIn? ==> s.dev.ext[s.calls[t].box] == s.calls[t].cmd.ext)
  }

  ghost predicate Fine(s: State) {
    Bounded(s) && PastPoll(s) && InOrder(s)
  }

  /** A message goes to a box that is no longer the next one. */
  predicate Misses(s: State, e: Event) {
    e.WriteMsg? && Enabled(s, e) && s.calls[e.t].box != s.next
  }

  lemma HitInOrder(s: State, t: nat)
    requires Fine(s) && Enabled(s, WriteMsg(t)) && s.calls[t].box == s.next
    ensures InOrder(Step(s, WriteMsg(t)))
  {
    var p := Plain(s).(pc := H.ExtIn(s.calls[t].cmd));
    assert H.Outstanding(p) == H.Outstanding(Plain(s));
    H.WriteMailbox(p);
    assert H.Step(p, H.WriteMsg) == Plain(Step(s, WriteMsg(t)));
  }

  /** A free box that is not the next one does not come right behind the stocked ones. */
  lemma MissBreaks(s: State, t: nat)
    requires Fine(s) && Misses(s, WriteMsg(t))
    ensures !InOrder(Step(s, WriteMsg(t)))
  {
    var u, box := Step(s, WriteMsg(t)), s.calls[t].box;
    var out := H.Outstanding(Plain(s));
    assert !s.dev.armed[box] && |out| < H.BOXES;
    assert H.Ahead(s.next, s.dev.turn) == |out| && H.Ahead(box, s.dev.turn) != H.Ahead(s.next, s.dev.turn);
    assert H.Ahead(box, s.dev.turn) > |out| && u.dev.armed[box];
    assert H.Outstanding(Plain(u)) == out + [s.calls[t].cmd];
  }

  lemma ExtInOrder(s: State, t: nat)
    requires Fine(s) && Enabled(s, WriteExt(t))
    ensures Fine(Step(s, WriteExt(t)))
  {
    assert H.Outstanding(Plain(Step(s, WriteExt(t)))) == H.Outstanding(Plain(s));
  }

  lemma ServeFine(s: State)
    requires Fine(s)
    ensures Fine(Step(s, Serve)) && Plain(Step(s, Serve)) == H.Served(Plain(s))
  {
    H.ServeMailbox(Plain(s));
  }

  lemma StepFineIff(s: State, e: Event)
    requires Fine(s) && Enabled(s, e)
    ensures PastPoll(Step(s, e)) && (InOrder(Step(s, e)) <==> !Misses(s, e))
  {
    match e
    case WriteExt(t) => ExtInOrder(s, t);
    case WriteMsg(t) =>
      if s.calls[t].box == s.next {
        HitInOrder(s, t);
      } else {
        MissBreaks(s, t);
      }
    case Serve => ServeFine(s);
    case _ => assert Plain(Step(s, e)) == Plain(s);
  }

  // ---- runs ----

  ghost predicate AlwaysInOrder(s: State, es: seq<Event>)
    requires Bounded(s)
    decreases es
  {
    InOrder(s) && (es != [] ==> AlwaysInOrder(Next(s, es[0]), es[1..]))
  }

  predicate NeverMisses(s: State, es: seq<Event>)
    requires Bounded(s)
    decreases es
  {
    es != [] ==> !Misses(s, es[0]) && NeverMisses(Next(s, es[0]), es[1..])
  }

  /** Over every run of any number of callers the mailbox is in order throughout exactly when every message
      goes to the box that is next when it is written. */
  lemma {:induction false} InOrderIffNeverMisses(s: State, es: seq<Event>)
    requires Fine(s)
    ensures AlwaysInOrder(s, es) <==> NeverMisses(s, es)
    decreases es
  {
    if es != [] {
      if Enabled(s, es[0]) {
        StepFineIff(s, es[0]);
      }
      var u := Next(s, es[0]);
      if InOrder(u) {
        InOrderIffNeverMisses(u, es[1..]);
      } else {
        assert !AlwaysInOrder(u, es[1..]);
      }
    }
  }

  // ---- overlapping calls ----

  /** No call begins while another one is under way. */
  predicate NoOverlap(s: State, es: seq<Event>)
    requires Bounded(s)
    decreases es
  {
    es != [] ==> !(es[0].Begin? && Enabled(s, es[0]) && s.calls != map[]) && NoOverlap(Next(s, es[0]), es[1..])
  }

  /** At most one call is under way, and it has the next box. */
  predicate Lone(s: State) {
    && (forall t :: t in s.calls ==> s.calls[t].box == s.next)
    && (forall t, u :: t in s.calls && u in s.calls ==> t == u)
  }

  /** So it is at the start, with every box free and driver and firmware at the same one. */
  lemma InitLone(dev: H.Device, next: nat)
    requires H.Shape(dev) && next == dev.turn && forall b :: 0 <= b < H.BOXES ==> !dev.armed[b]
    ensures Fine(State(next, map[], None, dev, [], [])) && Lone(State(next, map[], None, dev, [], []))
  {
    H.InitMailbox(dev, next);
    assert Plain(State(next, map[], None, dev, [], [])) == H.Init(dev, next);
  }

  lemma LoneStep(s: State, e: Event)
    requires Fine(s) && Lone(s) && Enabled(s, e) && !(e.Begin? && s.calls != map[])
    ensures Fine(Step(s, e)) && Lone(Step(s, e))
  {
    StepFineIff(s, e);
  }

  lemma {:induction false} LoneInOrder(s: State, es: seq<Event>)
    requires Fine(s) && Lone(s) && NoOverlap(s, es)
    ensures AlwaysInOrder(s, es)
    decreases es
  {
    if es != [] {
      if Enabled(s, es[0]) {
        LoneStep(s, es[0]);
      }
      LoneInOrder(Next(s, es[0]), es[1..]);
    }
  }

  predicate Quiet(ks: seq<Event>) {
    forall i :: 0 <= i < |ks| ==> !ks[i].Begin?
  }

  /** Whatever becomes of the calls under way, with no more calls, the mailbox stays in order. */
  ghost predicate Safe(s: State)
    requires Bounded(s)
  {
    forall ks: seq<Event> :: Quiet(ks) ==> AlwaysInOrder(s, ks)
  }

  ghost predicate AlwaysSafe(s: State, es: seq<Event>)
    requires Bounded(s)
    decreases es
  {
    Safe(s) && (es != [] ==> AlwaysSafe(Next(s, es[0]), es[1..]))
  }

  lemma {:induction false} QuietNoOverlap(s: State, ks: seq<Event>)
    requires Bounded(s) && Quiet(ks)
    ensures NoOverlap(s, ks)
    decreases ks
  {
    if ks != [] {
      QuietNoOverlap(Next(s, ks[0]), ks[1..]);
    }
  }

  lemma LoneSafe(s: State)
    requires Fine(s) && Lone(s)
    ensures Safe(s)
  {
    forall ks: seq<Event> | Quiet(ks)
      ensures AlwaysInOrder(s, ks)
    {
      QuietNoOverlap(s, ks);
      LoneInOrder(s, ks);
    }
  }

  lemma {:induction false} AlwaysThen(s: State, a: seq<Event>, b: seq<Event>)
    requires Bounded(s) && AlwaysInOrder(s, a + b)
    ensures AlwaysInOrder(s, a) && AlwaysInOrder(Run(s, a), b)
    decreases a
  {
    if a == [] {
      assert a + b == b;
    } else {
      assert (a + b)[0] == a[0] && (a + b)[1..] == a[1..] + b;
      AlwaysThen(Next(s, a[0]), a[1..], b);
    }
  }

  function Serves(n: nat): (es: seq<Event>)
    ensures |es| == n && Quiet(es)
  {
    seq(n, _ => Serve)
  }

  /** The firmware empties its boxes and the calls stay where they are. */
  lemma {:induction false} ServesEmpty(s: State, n: nat) returns (u: State)
    requires Fine(s) && n == |H.Outstanding(Plain(s))|
    ensures u == Run(s, Serves(n)) && Fine(u) && u == s.(dev := u.dev, delivered := u.delivered)
    ensures forall b :: 0 <= b < H.BOXES ==> !u.dev.armed[b]
    decreases n
  {
    if n == 0 {
      u := s;
    } else {
      assert Serves(n)[0] == Serve && Serves(n)[1..] == Serves(n - 1);
      ServeFine(s);
      H.ServeMailbox(Plain(s));
      u := ServesEmpty(Step(s, Serve), n - 1);
    }
  }

  function Rest(t: nat): (es: seq<Event>)
    ensures Quiet(es)
  {
    [Poll(t), WriteExt(t), WriteMsg(t)]
  }

  /** A call that finds its box free runs to its end. */
  lemma Finishes(s: State, t: nat) returns (v: State)
    requires Fine(s) && Turn(s, t) && !s.dev.armed[s.calls[t].box]
    ensures Fine(v) && Enabled(v, WriteMsg(t)) && Run(s, Rest(t)) == Step(v, WriteMsg(t))
    ensures v.next == s.next && v.calls.Keys == s.calls.Keys && v.delivered == s.delivered && v.accepted == s.accepted
    ensures v.dev.armed == s.dev.armed && v.calls[t].box == s.calls[t].box
    ensures forall u :: u in s.calls && u != t ==> v.calls[u] == s.calls[u]
  {
    var a := Next(s, Poll(t));
    v := Next(a, WriteExt(t));
    if Enabled(s, Poll(t)) {
      StepFineIff(s, Poll(t));
    }
    if Enabled(a, WriteExt(t)) {
      StepFineIff(a, WriteExt(t));
    }
    var es := Rest(t);
    assert es[1..] == [WriteExt(t), WriteMsg(t)] && es[1..][1..] == [WriteMsg(t)] && [WriteMsg(t)][1..] == [];
    assert Run(v, [WriteMsg(t)]) == Run(Next(v, WriteMsg(t)), []);
    assert Run(a, es[1..]) == Run(v, [WriteMsg(t)]);
  }

  lemma {:induction false} AlwaysEnds(s: State, es: seq<Event>)
    requires Bounded(s) && AlwaysInOrder(s, es)
    ensures InOrder(Run(s, es))
    decreases es
  {
    if es != [] {
      AlwaysEnds(Next(s, es[0]), es[1..]);
    }
  }

  lemma NoneArmed(p: H.State)
    requires H.Mailbox(p) && forall b :: 0 <= b < H.BOXES ==> !p.dev.armed[b]
    ensures |p.accepted| == |p.delivered|
  {
    assert H.Ahead(p.dev.turn, p.dev.turn) == 0;
  }

  /** With nothing outstanding, a call that still has the next box runs to its end. */
  lemma Hits(s: State, t: nat) returns (b: State)
    requires Fine(s) && Turn(s, t) && s.calls[t].box == s.next && forall x :: 0 <= x < H.BOXES ==> !s.dev.armed[x]
    ensures b == Run(s, Rest(t)) && Fine(b) && b.active.None? && b.next == H.After(s.next)
    ensures |H.Outstanding(Plain(b))| == 1
    ensures forall u :: u in s.calls && u != t ==> u in b.calls && b.calls[u] == s.calls[u]
  {
    var v := Finishes(s, t);
    StepFineIff(v, WriteMsg(t));
    b := Step(v, WriteMsg(t));
    NoneArmed(Plain(s));
  }

  /** The first of two calls ends and its command is delivered; the second one's box is no longer next. */
  lemma FirstGone(s: State, t: nat, u: nat) returns (c: State, ks: seq<Event>)
    requires Fine(s) && t in s.calls && u in s.calls && t != u && Turn(s, t) && s.calls[u].stage.Asked?
    requires s.calls[t].box == s.next && s.calls[u].box == s.next
    ensures Quiet(ks) && c == Run(s, ks)
    ensures Fine(c) && c.active.None? && u in c.calls && c.calls[u] == s.calls[u] && c.next == H.After(s.next)
    ensures forall b :: 0 <= b < H.BOXES ==> !c.dev.armed[b]
  {
    var n := |H.Outstanding(Plain(s))|;
    var a := ServesEmpty(s, n);
    var b := Hits(a, t);
    c := ServesEmpty(b, 1);
    RunThen(s, Serves(n), Rest(t));
    RunThen(s, Serves(n) + Rest(t), Serves(1));
    ks := Serves(n) + Rest(t) + Serves(1);
  }

  lemma {:induction false} RunThen(s: State, a: seq<Event>, b: seq<Event>)
    requires Bounded(s)
    ensures Run(s, a + b) == Run(Run(s, a), b)
    decreases a
  {
    if a == [] {
      assert a + b == b;
    } else {
      assert (a + b)[0] == a[0] && (a + b)[1..] == a[1..] + b;
      RunThen(Next(s, a[0]), a[1..], b);
    }
  }

  /** Two calls under way that read the same box: if both go through, the second message misses. */
  lemma OverlapBreaks(s: State, t: nat, u: nat) returns (ks: seq<Event>)
    requires Fine(s) && t in s.calls && u in s.calls && t != u && Turn(s, t) && s.calls[u].stage.Asked?
    requires s.calls[t].box == s.next && s.calls[u].box == s.next
    ensures Quiet(ks) && !AlwaysInOrder(s, ks)
  {
    var c, first := FirstGone(s, t, u);
    var w := Finishes(c, u);
    StepFineIff(w, WriteMsg(u));
    ks := first + Rest(u);
    if AlwaysInOrder(s, ks) {
      AlwaysThen(s, first, Rest(u));
      AlwaysEnds(c, Rest(u));
    }
  }

  lemma OverlapUnsafe(s: State, t: nat, cmd: H.Cmd)
    requires Fine(s) && Lone(s) && Enabled(s, Begin(t, cmd)) && s.calls != map[]
    ensures !Safe(Step(s, Begin(t, cmd)))
  {
    var u := Step(s, Begin(t, cmd));
    StepFineIff(s, Begin(t, cmd));
    var first :| first in s.calls;
    var ks := OverlapBreaks(u, first, t);
  }

  /** Over every run the mailbox is safe throughout, whatever becomes of the calls under way, exactly when no
      call begins while another one is under way. */
  lemma {:induction false} SafeIffNoOverlap(s: State, es: seq<Event>)
    requires Fine(s) && Lone(s)
    ensures AlwaysSafe(s, es) <==> NoOverlap(s, es)
    decreases es
  {
    LoneSafe(s);
    if es != [] {
      var u := Next(s, es[0]);
      if es[0].Begin? && Enabled(s, es[0]) && s.calls != map[] {
        OverlapUnsafe(s, es[0].t, es[0].cmd);
        assert !AlwaysSafe(u, es[1..]);
      } else {
        if Enabled(s, es[0]) {
          LoneStep(s, es[0]);
        }
        SafeIffNoOverlap(u, es[1..]);
      }
    }
  }
}
