/** The four-box H2C mailbox: the driver fills the boxes round-robin, the firmware empties them
    round-robin, at its own pace between any two EP0 accesses of a call. */
module H2c {
  import opened Bytes

  const BOXES := 4
  const TRIES := 30

  datatype Cmd = Cmd(msg: word, ext: word)

  /** `armed` is REG_HMETFR; a box is armed by writing its message register. `turn` is the box the
      firmware looks at next. */
  datatype Device = Device(msg: seq<word>, ext: seq<word>, armed: seq<bool>, turn: nat)

  /** Where a call is: not under way, polling, past the poll, or with the extension written. */
  datatype Pc = Idle | Polling(cmd: Cmd) | Free(cmd: Cmd) | ExtIn(cmd: Cmd)

  /** `next` is sc_h2c_box_next; the rest is history. */
  datatype State = State(next: nat, pc: Pc, dev: Device, accepted: seq<Cmd>, delivered: seq<Cmd>)

  datatype Event =
    | Call(cmd: Cmd)
    | Poll        // HMETFR was read
    | WriteExt
    | WriteMsg
    | GiveUp      // an access failed, or the box stayed busy for 30 polls
    | Serve       // the firmware looks at its next box

  predicate Shape(d: Device) {
    |d.msg| == |d.ext| == |d.armed| == BOXES && d.turn < BOXES
  }

  function Init(dev: Device, next: nat): State {
    State(next, Idle, dev, [], [])
  }

  predicate Enabled(s: State, e: Event) {
    match e
    case Call(_) => s.pc.Idle?
    case Poll => s.pc.Polling?
    case WriteExt => s.pc.Free?
    case WriteMsg => s.pc.ExtIn?
    case GiveUp => !s.pc.Idle?
    case Serve => true
  }

  function Served(s: State): State
    requires Shape(s.dev)
  {
    var b := s.dev.turn;
    if s.dev.armed[b] then
      s.(dev := s.dev.(armed := s.dev.armed[b := false], turn := After(b)),
         delivered := s.delivered + [Cmd(s.dev.msg[b], s.dev.ext[b])])
    else s
  }

  /** Writing the message register arms the box. */
  function Armed(d: Device, b: nat, msg: word): Device
    requires Shape(d) && b < BOXES
  {
    d.(msg := d.msg[b := msg], armed := d.armed[b := true])
  }

  function Step(s: State, e: Event): (t: State)
    requires Shape(s.dev) && s.next < BOXES && Enabled(s, e)
    ensures Shape(t.dev) && t.next < BOXES
  {
    match e
    case Call(cmd) => s.(pc := Polling(cmd))
    case Poll => if s.dev.armed[s.next] then s else s.(pc := Free(s.pc.cmd))
    case WriteExt => s.(dev := s.dev.(ext := s.dev.ext[s.next := s.pc.cmd.ext]), pc := ExtIn(s.pc.cmd))
    case WriteMsg =>
      s.(dev := Armed(s.dev, s.next, s.pc.cmd.msg), next := After(s.next), pc := Idle,
         accepted := s.accepted + [s.pc.cmd])
    case GiveUp => s.(pc := Idle)
    case Serve => Served(s)
  }

  // ---- the invariant ----

  /** How many boxes after the firmware's turn box b comes. */
  function Ahead(b: nat, turn: nat): (n: nat)
    requires b < BOXES && turn < BOXES
    ensures n < BOXES && n == (b - turn) % BOXES
  {
    if b >= turn then b - turn else b - turn + BOXES
  }

  function After(b: nat): (n: nat)
    requires b < BOXES
    ensures n < BOXES && n == (b + 1) % BOXES
  {
    if b == BOXES - 1 then 0 else b + 1
  }

  lemma AheadMoves(b: nat, turn: nat)
    requires b < BOXES && turn < BOXES
    ensures Ahead(b, After(turn)) == if b == turn then BOXES - 1 else Ahead(b, turn) - 1
    ensures Ahead(After(b), turn) == if Ahead(b, turn) == BOXES - 1 then 0 else Ahead(b, turn) + 1
  {
  }

  /** The boxes from the turn on hold these commands, armed, and the other boxes are free. */
  ghost predicate Stocked(d: Device, cmds: seq<Cmd>)
    requires Shape(d)
  {
    && |cmds| <= BOXES
    && forall b :: 0 <= b < BOXES ==>
         && (d.armed[b] <==> Ahead(b, d.turn) < |cmds|)
         && (d.armed[b] ==> cmds[Ahead(b, d.turn)] == Cmd(d.msg[b], d.ext[b]))
  }

  /** What is accepted and not yet delivered, oldest first. */
  function Outstanding(s: State): seq<Cmd>
    requires |s.delivered| <= |s.accepted|
  {
    s.accepted[|s.delivered|..]
  }

  /** The driver's next box comes right behind the stocked ones, and a call past the poll finds it free. */
  predicate InStep(s: State)
    requires Shape(s.dev) && |s.delivered| <= |s.accepted|
  {
    && s.next < BOXES && Ahead(s.next, s.dev.turn) == (if |Outstanding(s)| == BOXES then 0 else |Outstanding(s)|)
    && (s.pc.Free? || s.pc.ExtIn? ==> !s.dev.armed[s.next])
    && (s.pc.ExtIn? ==> s.dev.ext[s.next] == s.pc.cmd.ext)
  }

  ghost predicate Mailbox(s: State) {
    Shape(s.dev) && s.delivered <= s.accepted && Stocked(s.dev, Outstanding(s)) && InStep(s)
  }

  lemma InitMailbox(dev: Device, next: nat)
    requires Shape(dev) && next == dev.turn && forall b :: 0 <= b < BOXES ==> !dev.armed[b]
    ensures Mailbox(Init(dev, next))
  {
  }

  lemma Taken(d: Device, cmds: seq<Cmd>)
    requires Shape(d) && Stocked(d, cmds) && cmds != []
    ensures d.armed[d.turn] && Cmd(d.msg[d.turn], d.ext[d.turn]) == cmds[0]
    ensures Stocked(d.(armed := d.armed[d.turn := false], turn := After(d.turn)), cmds[1..])
  {
    var e := d.(armed := d.armed[d.turn := false], turn := After(d.turn));
    forall b | 0 <= b < BOXES
      ensures e.armed[b] <==> Ahead(b, e.turn) < |cmds| - 1
      ensures e.armed[b] ==> cmds[1..][Ahead(b, e.turn)] == Cmd(e.msg[b], e.ext[b])
    {
      AheadMoves(b, d.turn);
    }
  }

  lemma ServeOne(s: State)
    requires Mailbox(s) && Outstanding(s) != []
    ensures var t := Served(s);
            && t.delivered == s.delivered + [s.accepted[|s.delivered|]] && t.accepted == s.accepted
            && t.delivered <= t.accepted && Outstanding(t) == Outstanding(s)[1..]
            && Stocked(t.dev, Outstanding(t))
  {
    Taken(s.dev, Outstanding(s));
    var t := Served(s);
    assert t.delivered == s.delivered + [s.accepted[|s.delivered|]];
    assert Outstanding(t) == Outstanding(s)[1..];
  }

  /** The firmware takes the oldest outstanding command, if there is one. */
  lemma ServeMailbox(s: State)
    requires Mailbox(s)
    ensures Mailbox(Served(s)) && Served(s).accepted == s.accepted && s.delivered <= Served(s).delivered
    ensures Outstanding(s) != [] ==> Outstanding(Served(s)) == Outstanding(s)[1..]
  {
    if Outstanding(s) != [] {
      ServeOne(s);
      AheadMoves(s.next, s.dev.turn);
    } else {
      assert Ahead(s.dev.turn, s.dev.turn) == 0;
    }
  }

  lemma Added(d: Device, cmds: seq<Cmd>, b: nat, c: Cmd)
    requires Shape(d) && Stocked(d, cmds) && b < BOXES && Ahead(b, d.turn) == |cmds| && d.ext[b] == c.ext
    ensures Stocked(Armed(d, b, c.msg), cmds + [c])
  {
    var e := Armed(d, b, c.msg);
    forall x | 0 <= x < BOXES
      ensures e.armed[x] <==> Ahead(x, e.turn) < |cmds| + 1
      ensures e.armed[x] ==> (cmds + [c])[Ahead(x, e.turn)] == Cmd(e.msg[x], e.ext[x])
    {
      assert Ahead(x, d.turn) == Ahead(b, d.turn) <==> x == b;
    }
  }

  lemma WriteMailbox(s: State)
    requires Mailbox(s) && s.pc.ExtIn?
    ensures Mailbox(Step(s, WriteMsg))
  {
    var t := Step(s, WriteMsg);
    Added(s.dev, Outstanding(s), s.next, s.pc.cmd);
    assert Outstanding(t) == Outstanding(s) + [s.pc.cmd];
    AheadMoves(s.next, s.dev.turn);
  }

  lemma StepIdle(s: State)
    requires Mailbox(s)
    ensures Mailbox(s.(pc := Idle))
  {
    assert Outstanding(s.(pc := Idle)) == Outstanding(s);
  }

  lemma StepMailbox(s: State, e: Event)
    requires Mailbox(s) && Enabled(s, e)
    ensures Mailbox(Step(s, e)) && s.delivered <= Step(s, e).delivered && s.accepted <= Step(s, e).accepted
  {
    match e
    case Serve => ServeMailbox(s);
    case WriteMsg => WriteMailbox(s);
    case _ =>
  }

  // ---- runs ----

  function Run(s: State, es: seq<Event>): (t: State)
    requires Shape(s.dev) && s.next < BOXES
    ensures Shape(t.dev) && t.next < BOXES
    decreases es
  {
    if es == [] then s else Run(if Enabled(s, es[0]) then Step(s, es[0]) else s, es[1..])
  }

  /** Over every run the delivered commands are the accepted ones, in order, each with its own extension,
      but for at most four still in their boxes. */
  lemma {:induction false} RunMailbox(s: State, es: seq<Event>)
    requires Mailbox(s)
    ensures Mailbox(Run(s, es))
    ensures Run(s, es).delivered <= Run(s, es).accepted && |Run(s, es).accepted| - |Run(s, es).delivered| <= BOXES
    decreases es
  {
    if es != [] {
      if Enabled(s, es[0]) {
        StepMailbox(s, es[0]);
        RunMailbox(Step(s, es[0]), es[1..]);
      } else {
        RunMailbox(s, es[1..]);
      }
    }
  }

  /** So from the start, with every box free and driver and firmware at the same one. */
  lemma DeliveredInOrder(dev: Device, next: nat, es: seq<Event>)
    requires Shape(dev) && next == dev.turn && forall b :: 0 <= b < BOXES ==> !dev.armed[b]
    ensures var s := Run(Init(dev, next), es);
            s.delivered <= s.accepted && |s.accepted| - |s.delivered| <= BOXES
  {
    InitMailbox(dev, next);
    RunMailbox(Init(dev, next), es);
  }

  /** No box is written while it is armed. */
  lemma NoOverwrite(s: State, es: seq<Event>, e: Event)
    requires Mailbox(s) && (e.WriteExt? || e.WriteMsg?) && Enabled(Run(s, es), e)
    ensures !Run(s, es).dev.armed[Run(s, es).next]
  {
    RunMailbox(s, es);
  }

  function Serves(n: nat): (es: seq<Event>)
    ensures |es| == n
  {
    seq(n, _ => Serve)
  }

  /** Left to itself the firmware delivers everything accepted. */
  lemma {:induction false} ServesDeliver(s: State, n: nat)
    requires Mailbox(s) && n == |Outstanding(s)|
    ensures Run(s, Serves(n)).delivered == s.accepted
    decreases n
  {
    if n > 0 {
      ServeMailbox(s);
      assert Serves(n)[1..] == Serves(n - 1);
      ServesDeliver(Served(s), n - 1);
    } else {
      assert s.accepted[..|s.delivered|] == s.delivered;
    }
  }

  /** A message write that reached the chip although the transfer was reported as failed. */
  function WriteUnseen(s: State): State
    requires Shape(s.dev) && s.next < BOXES && s.pc.ExtIn?
  {
    s.(dev := Armed(s.dev, s.next, s.pc.cmd.msg), pc := Idle)
  }

  /** From every state in order, one such write puts the mailbox out of order. */
  lemma UnseenBreaks(s: State)
    requires Mailbox(s) && s.pc.ExtIn?
    ensures !Mailbox(WriteUnseen(s))
  {
    var t := WriteUnseen(s);
    assert Ahead(s.next, s.dev.turn) == |Outstanding(s)|;
    assert Outstanding(t) == Outstanding(s);
    assert t.dev.armed[s.next];
  }

  /** What happens in a run with lost replies: an event as above, or a message write that goes unseen. */
  datatype Happening = Seen(event: Event) | Unseen

  predicate Possible(s: State, h: Happening) {
    match h
    case Seen(e) => Enabled(s, e)
    case Unseen => s.pc.ExtIn?
  }

  function Happened(s: State, h: Happening): (t: State)
    requires Shape(s.dev) && s.next < BOXES
    ensures Shape(t.dev) && t.next < BOXES
  {
    if !Possible(s, h) then s
    else match h
      case Seen(e) => Step(s, e)
      case Unseen => WriteUnseen(s)
  }

  ghost predicate AlwaysMailbox(s: State, hs: seq<Happening>)
    requires Shape(s.dev) && s.next < BOXES
    decreases hs
  {
    Mailbox(s) && (hs != [] ==> AlwaysMailbox(Happened(s, hs[0]), hs[1..]))
  }

  predicate NoneUnseen(s: State, hs: seq<Happening>)
    requires Shape(s.dev) && s.next < BOXES
    decreases hs
  {
    hs != [] ==> !(hs[0].Unseen? && Possible(s, hs[0])) && NoneUnseen(Happened(s, hs[0]), hs[1..])
  }

  /** Over every run the mailbox is in order throughout exactly when no message write goes unseen. */
  lemma {:induction false} InOrderIffNoneUnseen(s: State, hs: seq<Happening>)
    requires Mailbox(s)
    ensures AlwaysMailbox(s, hs) <==> NoneUnseen(s, hs)
    decreases hs
  {
    if hs != [] {
      var t := Happened(s, hs[0]);
      if hs[0].Unseen? && Possible(s, hs[0]) {
        UnseenBreaks(s);
        assert !AlwaysMailbox(t, hs[1..]);
      } else {
        if Possible(s, hs[0]) {
          StepMailbox(s, hs[0].event);
        }
        InOrderIffNoneUnseen(t, hs[1..]);
      }
    }
  }

  /** And it shows, from a fresh mailbox: the firmware delivers a command that was never accepted, and passes
      over the box that the next command goes to. */
  lemma UnseenWriteBreaks(dev: Device, a: Cmd, b: Cmd)
    requires Shape(dev) && dev.turn == 0 && forall x :: 0 <= x < BOXES ==> !dev.armed[x]
    ensures var s := WriteUnseen(Step(Step(Step(Init(dev, 0), Call(a)), Poll), WriteExt));
            var t := Step(Step(Step(Step(Step(s, Serve), Call(b)), Poll), WriteExt), WriteMsg);
            && t.delivered == [a] && t.accepted == [b] && !Mailbox(t)
            && Step(t, Serve) == t
  {
    var s := WriteUnseen(Step(Step(Step(Init(dev, 0), Call(a)), Poll), WriteExt));
    var u := Step(s, Serve);
    assert u.dev.turn == 1 && u.next == 0 && !u.dev.armed[0] && !u.dev.armed[1] && u.delivered == [a];
    var t := Step(Step(Step(Step(u, Call(b)), Poll), WriteExt), WriteMsg);
    assert !t.dev.armed[1] && t.dev.armed[0] && t.accepted == [b] && t.dev.turn == 1;
  }

  // ---- rtw88_h2c_mailbox ----

  /** The driver beside the chip. Before access t the firmware takes served(t) turns; access t fails, with
      no effect on the chip, if fails(t). */
  class Softc {
    const fails: nat -> bool
    const served: nat -> nat
    var now: nat
    var next: nat
    ghost var pc: Pc
    var dev: Device
    ghost var accepted: seq<Cmd>
    ghost var delivered: seq<Cmd>

    ghost function Contents(): State
      reads this
    {
      State(next, pc, dev, accepted, delivered)
    }

    constructor (fails: nat -> bool, served: nat -> nat, dev: Device)
      requires Shape(dev) && dev.turn == 0 && forall b :: 0 <= b < BOXES ==> !dev.armed[b]
      ensures Mailbox(Contents()) && Contents() == Init(dev, 0)
    {
      this.fails, this.served, this.dev, now, next := fails, served, dev, 0, 0;
      pc, accepted, delivered := Idle, [], [];
    }

    method Firmware()
      requires Mailbox(Contents())
      modifies `dev, `delivered
      ensures Mailbox(Contents()) && |old(delivered)| <= |delivered|
    {
      ServeMailbox(Contents());
      var b := dev.turn;
      if dev.armed[b] {
        delivered := delivered + [Cmd(dev.msg[b], dev.ext[b])];
        dev := dev.(armed := dev.armed[b := false], turn := (b + 1) % BOXES);
      }
    }

    /** One EP0 access, the firmware running before it. */
    method Access() returns (ok: bool)
      requires Mailbox(Contents())
      modifies `dev, `delivered, `now
      ensures Mailbox(Contents()) && |old(delivered)| <= |delivered|
    {
      for i := 0 to served(now)
        invariant Mailbox(Contents()) && |old(delivered)| <= |delivered|
      {
        Firmware();
      }
      ok := !fails(now);
      now := now + 1;
    }

    /** Polls until the next box is free. */
    method AwaitFree(ghost cmd: Cmd) returns (ok: bool)
      requires Mailbox(Contents()) && pc == Polling(cmd)
      modifies `dev, `delivered, `now, `pc
      ensures Mailbox(Contents()) && |old(delivered)| <= |delivered|
      ensures ok ==> pc == Free(cmd)
    {
      for try := 0 to TRIES
        invariant Mailbox(Contents()) && pc == Polling(cmd) && |old(delivered)| <= |delivered|
      {
        ok := Access();
        if !ok {
          return;
        }
        if !dev.armed[next] {
          StepMailbox(Contents(), Poll);
          pc := Free(cmd);
          return;
        }
      }
      ok := false;
    }

    method PutExt(ghost cmd: Cmd, ext: word) returns (ok: bool)
      requires Mailbox(Contents()) && pc == Free(cmd) && ext == cmd.ext
      modifies `dev, `delivered, `now, `pc
      ensures Mailbox(Contents()) && |old(delivered)| <= |delivered|
      ensures ok ==> pc == ExtIn(cmd)
    {
      ok := Access();
      if ok {
        ghost var was := Contents();
        StepMailbox(was, WriteExt);
        dev := dev.(ext := dev.ext[next := ext]);
        pc := ExtIn(cmd);
        assert Contents() == Step(was, WriteExt);
      }
    }

    method PutMsg(ghost cmd: Cmd, msg: word) returns (ok: bool)
      requires Mailbox(Contents()) && pc == ExtIn(cmd) && msg == cmd.msg
      modifies this
      ensures Mailbox(Contents()) && |old(delivered)| <= |delivered|
      ensures accepted == if ok then old(accepted) + [cmd] else old(accepted)
      ensures next == if ok then After(old(next)) else old(next)
    {
      ok := Access();
      if ok {
        ghost var was := Contents();
        StepMailbox(was, WriteMsg);
        dev := dev.(msg := dev.msg[next := msg], armed := dev.armed[next := true]);
        next := (next + 1) % BOXES;
        accepted := accepted + [cmd];
        pc := Idle;
        assert Contents() == Step(was, WriteMsg);
      }
    }

    ghost method Finish()
      requires Mailbox(Contents())
      modifies `pc
      ensures Mailbox(Contents()) && pc == Idle
    {
      ghost var was := Contents();
      StepIdle(was);
      pc := Idle;
      assert Contents() == was.(pc := Idle);
    }

    /** rtw88_h2c_mailbox. Whatever the firmware does meanwhile, the command is accepted exactly when the
        call succeeds, and the mailbox stays in order. */
    method H2cMailbox(msg: word, ext: word) returns (ok: bool)
      requires Mailbox(Contents()) && pc == Idle
      modifies this
      ensures Mailbox(Contents()) && pc == Idle && |old(delivered)| <= |delivered|
      ensures accepted == if ok then old(accepted) + [Cmd(msg, ext)] else old(accepted)
      ensures next == if ok then After(old(next)) else old(next)
    {
      ghost var cmd := Cmd(msg, ext);
      ghost var was := Contents();
      StepMailbox(was, Call(cmd));
      pc := Polling(cmd);
      assert Contents() == Step(was, Call(cmd));
      ok := AwaitFree(cmd);
      if !ok {
        Finish();
        return;
      }
      ok := PutExt(cmd, ext);
      if !ok {
        Finish();
        return;
      }
      ok := PutMsg(cmd, msg);
      Finish();
    }
  }
}
