/** Coalesced link work: net80211 posts transitions, one taskqueue worker carries them out together with
    the keepalive ticks. A step is one critical section of the driver lock, or one H2C command. */
module LinkWork {
  import opened Bytes
  import W = Watchdog

  /** What the worker is doing: nothing, about to take the posted work, or the arm for a transition (up or
      down) with its media report, then its keepalive change, still ahead; or a keepalive tick about to
      look at the tighten flag, or with the tighten command just sent. */
  datatype Worker = Idle | Taking | Report(up: bool) | Switch(up: bool) | Ticking | Tightened

  /** up, down: bits of sc_post_state_ops. posting: newstate is between its critical section and
      taskqueue_enqueue. task: the link task is enqueued. History: last is the last posted transition,
      media what the last delivered report said, stale whether the latest report failed. */
  datatype Link = Link(up: bool, down: bool, posting: bool, task: bool,
                       last: Option<bool>, media: Option<bool>, stale: bool)

  /** active, fired: sc_fwka_active, sc_ra_tighten_fired. callout, callouts: the callout is armed, and its
      firings that have not enqueued the tick yet. task: the tick is enqueued. History: starts counts the
      keepalive starts, tightens holds that count at each tighten. */
  datatype Keep = Keep(active: bool, fired: bool, callout: bool, callouts: nat, task: bool,
                       starts: nat, tightens: seq<nat>)

  datatype State = State(link: Link, keep: Keep, worker: Worker)

  datatype Event =
    | Post(up: bool)
    | Enqueue
    | TakeTask            // the worker starts the link task
    | TakeOps             // it copies and clears the posted work
    | Media(ok: bool)     // MEDIA_STATUS of its arm
    | Keepalive           // rtw88_fwka_start or rtw88_fwka_stop
    | TakeTick            // the worker starts a tick
    | Tighten(due: bool)  // the mask is set and two seconds have passed
    | EndTick
    | Fire                // the callout expires
    | FireEnqueue

  function Init(): State {
    State(Link(false, false, false, false, None, None, false), Keep(false, false, false, 0, false, 0, []), Idle)
  }

  predicate Enabled(s: State, e: Event) {
    match e
    case Post(_) => !s.link.posting
    case Enqueue => s.link.posting
    case TakeTask => s.worker.Idle? && s.link.task
    case TakeOps => s.worker.Taking?
    case Media(_) => s.worker.Report?
    case Keepalive => s.worker.Switch?
    case TakeTick => s.worker.Idle? && s.keep.task
    case Tighten(due) => s.worker.Ticking? && s.keep.active && due && !s.keep.fired
    case EndTick => s.worker.Ticking? || s.worker.Tightened?
    case Fire => s.keep.callout
    case FireEnqueue => s.keep.callouts > 0
  }

  // ---- the critical sections ----

  /** rtw88_newstate: the later transition displaces the other one. */
  function Posted(l: Link, up: bool): Link {
    l.(up := up, down := !up, posting := true, last := Some(up))
  }

  /** The head of rtw88_post_state_task: which arm it takes. With both bits it would go down. */
  function ArmFor(l: Link): Worker {
    if l.up && !l.down then Report(true) else if l.down then Report(false) else Idle
  }

  function Reported(l: Link, up: bool, ok: bool): Link {
    l.(media := if ok then Some(up) else l.media, stale := !ok)
  }

  /** rtw88_fwka_start: nothing when the keepalive is already running. */
  function Started(k: Keep): Keep {
    if k.active then k else k.(active := true, fired := false, callout := true, starts := k.starts + 1)
  }

  /** rtw88_fwka_stop */
  function Stopped(k: Keep): Keep {
    k.(active := false, callout := false)
  }

  function Step(s: State, e: Event): State
    requires Enabled(s, e)
  {
    var l, k, w := s.link, s.keep, s.worker;
    match e
    case Post(up) => State(Posted(l, up), k, w)
    case Enqueue => State(l.(posting := false, task := true), k, w)
    case TakeTask => State(l.(task := false), k, Taking)
    case TakeOps => State(l.(up := false, down := false), k, ArmFor(l))
    case Media(ok) => State(Reported(l, w.up, ok), k, Switch(w.up))
    case Keepalive => State(l, if w.up then Started(k) else Stopped(k), Idle)
    case TakeTick => State(l, k.(task := false), if k.active then Ticking else Idle)
    case Tighten(_) => State(l, k.(tightens := k.tightens + [k.starts]), Tightened)
    case EndTick => State(l, k.(fired := k.fired || w.Tightened?, callout := k.callout || k.active), Idle)
    case Fire => State(l, k.(callout := false, callouts := k.callouts + 1), w)
    case FireEnqueue => State(l, k.(callouts := k.callouts - 1, task := true), w)
  }

  function Run(s: State, es: seq<Event>): State
    decreases es
  {
    if es == [] then s else Run(if Enabled(s, es[0]) then Step(s, es[0]) else s, es[1..])
  }

  // ---- what every step keeps ----

  /** The chip and the keepalive are as the last transition wants them. */
  predicate Settled(l: Link, active: bool) {
    l.last.Some? ==> (l.stale || l.media == l.last) && active == l.last.value
  }

  /** Posted work names the last transition and has a task coming for it; without posted work, the last
      transition is carried out or being carried out. */
  predicate LinkInv(l: Link, active: bool, w: Worker) {
    && !(l.up && l.down)
    && if l.up || l.down then l.last == Some(l.up) && (l.posting || l.task || w.Taking?)
       else match w
         case Report(up) => l.last == Some(up)
         case Switch(up) => l.last == Some(up) && (l.stale || l.media == Some(up))
         case _ => Settled(l, active)
  }

  lemma TakenKeepsLink(l: Link, active: bool)
    requires LinkInv(l, active, Taking)
    ensures LinkInv(l.(up := false, down := false), active, ArmFor(l))
  {
  }

  lemma StepLink(s: State, e: Event)
    requires LinkInv(s.link, s.keep.active, s.worker) && Enabled(s, e)
    ensures var t := Step(s, e); LinkInv(t.link, t.keep.active, t.worker)
  {
    match e
    case Post(up) => assert Step(s, e).link == Posted(s.link, up);
    case Enqueue =>
    case TakeTask =>
    case TakeOps => TakenKeepsLink(s.link, s.keep.active);
    case Media(ok) => assert Step(s, e).worker == Switch(s.worker.up);
    case Keepalive => assert Step(s, e).keep.active == s.worker.up;
    case _ => assert Step(s, e).link == s.link && Step(s, e).keep.active == s.keep.active;
  }

  lemma {:induction false} RunLink(s: State, es: seq<Event>)
    requires LinkInv(s.link, s.keep.active, s.worker)
    ensures var t := Run(s, es); LinkInv(t.link, t.keep.active, t.worker)
    decreases es
  {
    if es != [] {
      if Enabled(s, es[0]) { StepLink(s, es[0]); }
      RunLink(if Enabled(s, es[0]) then Step(s, es[0]) else s, es[1..]);
    }
  }

  /** No link work is posted, enqueued or under way. */
  predicate Quiescent(s: State) {
    !s.link.posting && !s.link.task && !s.worker.Taking? && !s.worker.Report? && !s.worker.Switch?
  }

  /** Over every run: an up and a down transition are never both pending, and whenever no link work is
      under way none is pending, and the keepalive and the last report (unless it failed) match the last
      transition. */
  lemma LastTransitionWins(es: seq<Event>)
    ensures var t := Run(Init(), es);
            && !(t.link.up && t.link.down)
            && (Quiescent(t) ==> Settled(t.link, t.keep.active) && !t.link.up && !t.link.down)
  {
    RunLink(Init(), es);
  }

  /** A report that fails leaves what the chip was last told, and is remembered as failed. */
  lemma ReportIs(s: State, ok: bool)
    requires s.worker.Report?
    ensures var l := Step(s, Media(ok)).link;
            && l.media == (if ok then Some(s.worker.up) else s.link.media) && l.stale == !ok && l.last == s.link.last
  {
  }

  // ---- the worker gets there ----

  /** What the worker, and net80211's enqueue, do next about link work. */
  function Next(s: State): Event {
    if s.link.posting then Enqueue
    else match s.worker
      case Idle => TakeTask
      case Taking => TakeOps
      case Report(_) => Media(true)
      case Switch(_) => Keepalive
      case Ticking => EndTick
      case Tightened => EndTick
  }

  function Left(s: State): nat {
    (if s.link.posting then 16 else 0) + (if s.link.task then 8 else 0) +
    match s.worker
    case Idle => 0
    case Taking => 4
    case Report(_) => 3
    case Switch(_) => 2
    case Ticking => 1
    case Tightened => 1
  }

  /** From any state, with nothing more posted, the worker comes to rest and everything is settled. */
  lemma {:induction false} Settles(s: State) returns (es: seq<Event>)
    requires LinkInv(s.link, s.keep.active, s.worker)
    ensures var t := Run(s, es); Quiescent(t) && Settled(t.link, t.keep.active) && t.link.last == s.link.last
    ensures forall e :: e in es ==> !e.Post?
    decreases Left(s)
  {
    es := [];
    if !Quiescent(s) {
      StepLink(s, Next(s));
      var rest := Settles(Step(s, Next(s)));
      es := [Next(s)] + rest;
      assert es[1..] == rest;
    }
  }

  // ---- the tighten command ----

  /** The starts that saw a tighten are all different: at most one for each. */
  ghost predicate Numbered(tightens: seq<nat>, starts: nat) {
    Ascending(tightens) && forall i :: 0 <= i < |tightens| ==> 1 <= tightens[i] <= starts
  }

  /** The flag is up once the present start has had its tighten. */
  predicate Flagged(k: Keep, w: Worker) {
    && (k.starts in k.tightens ==> k.fired || w.Tightened?)
    && (k.active ==> k.starts >= 1)
    && (w.Ticking? || w.Tightened? ==> k.active)
  }

  ghost predicate OncePerStart(s: State) {
    Numbered(s.keep.tightens, s.keep.starts) && Flagged(s.keep, s.worker)
  }

  lemma NumberAppends(tightens: seq<nat>, starts: nat)
    requires Numbered(tightens, starts) && starts !in tightens && starts >= 1
    ensures Numbered(tightens + [starts], starts)
  {
    forall i | 0 <= i < |tightens|
      ensures tightens[i] < starts
    {
      assert tightens[i] in tightens;
    }
  }

  lemma StartIsNew(k: Keep, w: Worker)
    requires Numbered(k.tightens, k.starts) && Flagged(k, w) && w.Switch?
    ensures Numbered(Started(k).tightens, Started(k).starts) && Flagged(Started(k), Idle)
  {
    assert forall i :: 0 <= i < |k.tightens| ==> k.tightens[i] != k.starts + 1;
  }

  lemma StepTighten(s: State, e: Event)
    requires OncePerStart(s) && Enabled(s, e)
    ensures OncePerStart(Step(s, e))
  {
    if e.Tighten? {
      NumberAppends(s.keep.tightens, s.keep.starts);
    } else if e.Keepalive? && s.worker.up {
      StartIsNew(s.keep, s.worker);
    }
  }

  /** Over every run the tighten command is sent at most once for each start of the keepalive. */
  lemma {:induction false} TightenOnce(s: State, es: seq<Event>)
    requires OncePerStart(s)
    ensures Ascending(Run(s, es).keep.tightens) && OncePerStart(Run(s, es))
    decreases es
  {
    if es != [] {
      if Enabled(s, es[0]) { StepTighten(s, es[0]); }
      TightenOnce(if Enabled(s, es[0]) then Step(s, es[0]) else s, es[1..]);
    }
  }

  // ---- the keepalive goes on ----

  /** While the keepalive is active its next tick is on the way: the callout is armed, has fired, the tick is
      enqueued or under way; and the callout is armed only then. */
  predicate Beating(s: State) {
    && (s.keep.active ==>
          s.keep.callout || s.keep.callouts > 0 || s.keep.task || s.worker.Ticking? || s.worker.Tightened?)
    && (s.keep.callout ==> s.keep.active)
  }

  lemma {:induction false} RunBeating(s: State, es: seq<Event>)
    requires Beating(s)
    ensures Beating(Run(s, es))
    decreases es
  {
    if es != [] {
      RunBeating(if Enabled(s, es[0]) then Step(s, es[0]) else s, es[1..]);
    }
  }

  function Apply(s: State, e: Event): State {
    if Enabled(s, e) then Step(s, e) else s
  }

  lemma RunTwo(s: State, a: Event, b: Event)
    ensures Run(s, [a, b]) == Apply(Apply(s, a), b)
  {
    assert [a, b][1..] == [b] && [b][1..] == [];
    assert Run(Apply(s, a), [b]) == Run(Apply(Apply(s, a), b), []);
  }

  /** Over every run, while the keepalive is active and the worker has nothing in hand, its callout and its task
      lead to another tick. */
  lemma TickComes(es: seq<Event>)
    ensures var s := Run(Init(), es);
            s.keep.active && s.worker.Idle? ==>
              Enabled(Run(s, [Fire, FireEnqueue]), TakeTick)
              && Step(Run(s, [Fire, FireEnqueue]), TakeTick).worker.Ticking?
  {
    RunBeating(Init(), es);
    RunTwo(Run(Init(), es), Fire, FireEnqueue);
  }

  /** An armed callout fires once, and each firing enqueues one tick. */
  lemma FiringIs(s: State)
    ensures s.keep.callout ==>
              Step(s, Fire).keep == s.keep.(callout := false, callouts := s.keep.callouts + 1)
    ensures s.keep.callouts > 0 ==>
              Step(s, FireEnqueue).keep == s.keep.(callouts := s.keep.callouts - 1, task := true)
  {
  }

  /** After a stop, what is left of the callout does nothing: a tick that was on its way finds the keepalive
      inactive and goes away, and none is armed. */
  lemma StoppedIsQuiet(s: State)
    requires s.worker == Switch(false)
    ensures var t := Step(s, Keepalive);
            && !t.keep.active && !t.keep.callout && t.worker.Idle? && t.keep.tightens == s.keep.tightens
            && (t.keep.task ==> Step(t, TakeTick) == t.(keep := t.keep.(task := false)))
  {
  }

  /** A fresh start has its own tighten: the first due tick after it sends one, whatever was sent before. */
  lemma StartTightens(s: State)
    requires s.worker == Switch(true) && !s.keep.active
    ensures var t := Run(Step(s, Keepalive), [Fire, FireEnqueue]);
            && Enabled(t, TakeTick) && Enabled(Step(t, TakeTick), Tighten(true))
            && Step(Step(t, TakeTick), Tighten(true)).keep.tightens == s.keep.tightens + [s.keep.starts + 1]
  {
    RunTwo(Step(s, Keepalive), Fire, FireEnqueue);
  }

  /** A start while the keepalive is active changes nothing. */
  lemma RestartIsNothing(s: State)
    requires s.worker == Switch(true) && s.keep.active
    ensures Step(s, Keepalive).keep == s.keep
  {
  }

  // ---- the driver's routines ----

  /** The soft state of link work, its worker position and history beside it. */
  class Softc {
    var link: Link
    var keep: Keep
    var dog: W.Dog
    ghost var worker: Worker

    ghost function Contents(): State
      reads this
    {
      State(link, keep, worker)
    }

    constructor ()
      ensures Contents() == Init() && dog == W.Dog(0, false, 0, 0)
      ensures link == Link(false, false, false, false, None, None, false) && worker == Idle
      ensures keep == Keep(false, false, false, 0, false, 0, [])
    {
      dog := W.Dog(0, false, 0, 0);
      link, keep := Link(false, false, false, false, None, None, false), Keep(false, false, false, 0, false, 0, []);
      worker := Idle;
    }

    /** The critical section of rtw88_newstate for a transition into RUN or out of it. */
    method NewState(up: bool)
      requires !link.posting
      modifies `link
      ensures Contents() == Step(old(Contents()), Post(up))
    {
      if up {
        link := link.(up := true);
        link := link.(down := false);
      } else {
        link := link.(down := true);
        link := link.(up := false);
      }
      link := link.(posting := true, last := Some(up));
    }

    /** The first critical section of rtw88_post_state_task: whether there is an arm to take, and which. */
    method TakePosted() returns (arm: Option<bool>)
      requires worker == Taking
      modifies `link, `worker
      ensures Contents() == Step(old(Contents()), TakeOps)
      ensures worker == match arm case None => Idle case Some(up) => Report(up)
    {
      var up, down := link.up, link.down;
      link := link.(up := false, down := false);
      arm := if up && !down then Some(true) else if down then Some(false) else None;
      worker := match arm case None => Idle case Some(b) => Report(b);
    }

    /** rtw88_fwka_start; it also starts the watchdog afresh. */
    method FwkaStart(rxPackets: nat)
      requires worker == Switch(true)
      modifies `keep, `worker, `dog
      ensures dog == if old(keep).active then old(dog) else W.Start(old(dog), rxPackets)
      ensures Contents() == Step(old(Contents()), Keepalive)
    {
      worker := Idle;
      if keep.active {
        return;
      }
      keep := keep.(active := true);
      dog := dog.(last := rxPackets);
      dog := dog.(ticks := 0);
      dog := dog.(logged := false);
      keep := keep.(fired := false, starts := keep.starts + 1);
      keep := keep.(callout := true);
    }

    /** rtw88_fwka_stop */
    method FwkaStop()
      requires worker == Switch(false)
      modifies `keep, `worker
      ensures Contents() == Step(old(Contents()), Keepalive)
    {
      worker := Idle;
      keep := keep.(active := false);
      keep := keep.(callout := false);
    }

    /** The watchdog part of rtw88_fwka_task. */
    method WatchdogTick(rxPackets: nat)
      modifies `dog
      ensures dog == W.Tick(old(dog), rxPackets)
    {
      if rxPackets == dog.last {
        if dog.ticks < 255 {
          dog := dog.(ticks := dog.ticks + 1);
        }
        if dog.ticks >= 3 && !dog.logged {
          dog := dog.(stalls := dog.stalls + 1, logged := true);
        }
      } else {
        dog := dog.(ticks := 0, logged := false, last := rxPackets);
      }
    }

    /** rtw88_fwka_task: a tick taken off the queue, the power mode command (whatever becomes of it), the
        tighten command if it is due, the watchdog, and the callout armed again. */
    method FwkaTask(due: bool, rxPackets: nat) returns (powered: bool, sent: bool)
      requires worker == Idle && keep.task
      modifies `keep, `worker, `dog
      ensures dog == if old(keep).active then W.Tick(old(dog), rxPackets) else old(dog)
      ensures powered == old(keep).active
      ensures sent == (old(keep).active && due && !old(keep).fired)
      ensures Contents() == Run(old(Contents()), [TakeTick] + (if sent then [Tighten(true)] else []) + [EndTick])
    {
      ghost var was := Contents();
      keep := keep.(task := false);
      powered, sent := false, false;
      if !keep.active {
        TickRun(was, due);
        return;
      }
      powered := true;
      if !keep.fired && due {
        sent := true;
        keep := keep.(fired := true, tightens := keep.tightens + [keep.starts]);
      }
      WatchdogTick(rxPackets);
      if keep.active {
        keep := keep.(callout := true);
      }
      TickRun(was, due);
    }
  }

  lemma TickRun(s: State, due: bool)
    requires s.worker.Idle? && s.keep.task
    ensures var k := s.keep.(task := false);
            var sent := k.active && due && !k.fired;
            Run(s, [TakeTick] + (if sent then [Tighten(true)] else []) + [EndTick])
            == s.(keep := if !k.active then k
                          else if sent then k.(fired := true, tightens := k.tightens + [k.starts], callout := true)
                          else k.(callout := true))
  {
    var sent := s.keep.active && due && !s.keep.fired;
    var es := [TakeTick] + (if sent then [Tighten(true)] else []) + [EndTick];
    var t := Step(s, TakeTick);
    if sent {
      assert es[1..] == [Tighten(true), EndTick] && es[1..][1..] == [EndTick] && [EndTick][1..] == [];
      var u := Step(t, Tighten(true));
      assert Run(u, [EndTick]) == Step(u, EndTick);
    } else {
      assert es[1..] == [EndTick] && [EndTick][1..] == [];
    }
  }
}
