/** The critical sections of rtw88_usb_io_enter, rtw88_usb_io_exit, rtw88_usb_reg_sec and the
    region routines, each proved to carry out one step of Ep0. */
module Ep0Softc {
  import opened Bytes
  import E = Ep0

  class Endpoint {
    var busy: bool               // sc_io_busy
    ghost var pcs: seq<E.Pc>     // where each thread is suspended
    ghost var log: seq<E.Xfer>   // what has gone over the control endpoint

    ghost function State(): E.State
      reads this
    {
      E.State(busy, pcs, log)
    }

    constructor (ghost threads: nat)
      ensures State() == E.Init(threads)
    {
      busy, pcs, log := false, seq(threads, _ => E.Out), [];
    }

    /** One pass of the loop of rtw88_usb_io_enter: sleep, or claim the endpoint and start. */
    method EnterPass(ghost t: nat, ghost op: E.Op) returns (claimed: bool)
      requires t < |pcs|
      modifies this
      ensures claimed == !old(busy)
      ensures State() == E.TryEnter(old(State()), t, op)
    {
      if busy {
        pcs := pcs[t := E.Asleep(op)];
        return false;
      }
      busy := true;
      log, pcs := log + [E.Start(t, op)], pcs[t := E.Accessing(op)];
      return true;
    }

    /** rtw88_usb_io_exit; `wake` is the thread that wakeup_one picks. */
    method IoExit(ghost t: nat, ghost wake: nat)
      requires t < |pcs|
      modifies this
      ensures State() == E.Exit(old(State()), t, wake)
    {
      busy := false;
      pcs := E.Wake(pcs[t := E.Out], wake);
    }

    /** The tail of a region access: on success seal if the address asks for it, else leave. */
    method AccessDone(ghost t: nat, addr: nat, ok: bool, first: byte, ghost wake: nat)
      returns (error: bool, sealing: bool)
      requires E.Enabled(State(), E.Complete(t, ok, first, wake)) && addr == pcs[t].op.addr
      modifies this
      ensures error == !ok && sealing == (ok && E.InOnSection(addr))
      ensures State() == E.Step(old(State()), E.Complete(t, ok, first, wake))
    {
      error, sealing := !ok, false;
      log := log + [E.Done(t, ok, first)];
      if !ok {
        IoExit(t, wake);
        return;
      }
      if addr <= 0x00FF || (addr >= 0x1000 && addr <= 0x10FF) {
        log, pcs := log + [E.SealStart(t, E.SEAL_ADDR, first)], pcs[t := E.Sealing(pcs[t].op)];
        sealing := true;
      } else {
        IoExit(t, wake);
      }
    }

    /** The seal write came back; its failure is ignored. */
    method SealDone(ghost t: nat, ghost ok: bool, ghost wake: nat)
      requires E.Enabled(State(), E.SealComplete(t, ok, wake))
      modifies this
      ensures State() == E.Step(old(State()), E.SealComplete(t, ok, wake))
    {
      log := log + [E.SealDone(t, ok)];
      IoExit(t, wake);
    }
  }
}
