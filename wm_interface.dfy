/**
 * The window manager's side of the handshake with the desktop shell
 * (CanopyWM/src/wm_interface.c): the manager announces itself with the
 * `_CANOPY_WM_READY` property on the root window, and every
 * `_CANOPY_DE_READY` client message marks the shell ready and is answered
 * with one acknowledgement.
 */
module PeerInterface {
  import opened Foreign

  /** SubstructureNotifyMask | SubstructureRedirectMask: disjoint bits, so the OR is the sum. */
  const ACK_EVENT_MASK: int := SUBSTRUCTURE_NOTIFY_MASK + SUBSTRUCTURE_REDIRECT_MASK

  /** The acknowledgement: a 32-bit `_CANOPY_WM_READY` client message on the root window whose first datum is 1. */
  function Ack(root: Window, wmReady: Atom): Call {
    SendEvent(root, ACK_EVENT_MASK, Message(root, wmReady, 32, [1]))
  }

  /** Whether an event is the shell's readiness message. */
  predicate IsDeReady(ev: Event, deReady: Atom) {
    ev.ClientMessage? && ev.messageType == deReady
  }

  /** How many readiness messages a stream of events holds. */
  function CountDeReady(evs: seq<Event>, deReady: Atom): (n: nat)
    ensures n <= |evs|
    ensures n == 0 <==> forall i | 0 <= i < |evs| :: !IsDeReady(evs[i], deReady)
  {
    if evs == [] then 0
    else CountDeReady(evs[..|evs| - 1], deReady) + (if IsDeReady(evs[|evs| - 1], deReady) then 1 else 0)
  }

  /** The calls handling a stream of events makes: an acknowledgement and a flush per readiness message. */
  function Replies(evs: seq<Event>, root: Window, wmReady: Atom, deReady: Atom): (r: seq<Call>)
    ensures |r| == 2 * CountDeReady(evs, deReady)
  {
    if evs == [] then []
    else
      Replies(evs[..|evs| - 1], root, wmReady, deReady) +
      (if IsDeReady(evs[|evs| - 1], deReady) then [Ack(root, wmReady), Flush] else [])
  }

  /** Exactly one acknowledgement goes out per readiness message, and nothing answers any other event. */
  lemma {:induction false} OneAckPerMessage(evs: seq<Event>, root: Window, wmReady: Atom, deReady: Atom)
    ensures multiset(Replies(evs, root, wmReady, deReady))[Ack(root, wmReady)] == CountDeReady(evs, deReady)
    ensures forall c | c in Replies(evs, root, wmReady, deReady) :: c == Ack(root, wmReady) || c == Flush
  {
    AcksCounted(evs, root, wmReady, deReady);
    OnlyAcksAndFlushes(evs, root, wmReady, deReady);
  }

  lemma {:induction false} AcksCounted(evs: seq<Event>, root: Window, wmReady: Atom, deReady: Atom)
    ensures multiset(Replies(evs, root, wmReady, deReady))[Ack(root, wmReady)] == CountDeReady(evs, deReady)
  {
    if evs != [] {
      var prev := evs[..|evs| - 1];
      AcksCounted(prev, root, wmReady, deReady);
      var ready := IsDeReady(evs[|evs| - 1], deReady);
      var tail: seq<Call> := if ready then [Ack(root, wmReady), Flush] else [];
      assert Replies(evs, root, wmReady, deReady) == Replies(prev, root, wmReady, deReady) + tail;
      assert multiset(tail)[Ack(root, wmReady)] == if ready then 1 else 0;
    }
  }

  lemma {:induction false} OnlyAcksAndFlushes(evs: seq<Event>, root: Window, wmReady: Atom, deReady: Atom)
    ensures forall c | c in Replies(evs, root, wmReady, deReady) :: c == Ack(root, wmReady) || c == Flush
  {
    if evs != [] {
      OnlyAcksAndFlushes(evs[..|evs| - 1], root, wmReady, deReady);
    }
  }

  class Interface {
    var wmReady: Atom
    var deReady: Atom
    var deIsReady: bool
    var root: Window

    /** The static record starts zeroed. */
    constructor ()
      ensures wmReady == 0 && deReady == 0 && !deIsReady && root == 0
    {
      wmReady := 0;
      deReady := 0;
      deIsReady := false;
      root := 0;
    }

    /**
     * wm_interface_init: `wmReadyAtom` and `deReadyAtom` are what the server
     * interns for the two names, `displayRoot` the default root window. The
     * root's own id is stored in the WM-ready property.
     */
    method Init(wmReadyAtom: Atom, deReadyAtom: Atom, displayRoot: Window, out: Outbox)
      modifies this, out
      ensures wmReady == wmReadyAtom && deReady == deReadyAtom && root == displayRoot
      ensures !deIsReady
      ensures out.sent == old(out.sent) + [ChangeProperty(displayRoot, wmReadyAtom, XA_WINDOW, 32, [displayRoot])]
    {
      wmReady := wmReadyAtom;
      deReady := deReadyAtom;
      deIsReady := false;
      root := displayRoot;
      out.sent := out.sent + [ChangeProperty(root, wmReady, XA_WINDOW, 32, [root])];
    }

    /** wm_interface_cleanup: the property is withdrawn only while a display is open. */
    method Cleanup(displayOpen: bool, out: Outbox)
      modifies out
      ensures out.sent == old(out.sent) + (if displayOpen then [DeleteProperty(root, wmReady)] else [])
    {
      if displayOpen {
        out.sent := out.sent + [DeleteProperty(root, wmReady)];
      }
    }

    /**
     * wm_interface_handle_message: a readiness message sets the flag (it is
     * never cleared here) and is acknowledged and flushed, every time it
     * arrives; any other event changes nothing. The console line is not
     * part of the model.
     */
    method HandleMessage(ev: Event, out: Outbox)
      modifies this`deIsReady, out
      ensures deIsReady == (old(deIsReady) || IsDeReady(ev, deReady))
      ensures out.sent == old(out.sent) + (if IsDeReady(ev, deReady) then [Ack(root, wmReady), Flush] else [])
    {
      if ev.ClientMessage? {
        if ev.messageType == deReady {
          deIsReady := true;
          var reply := Message(root, wmReady, 32, [1]);
          out.sent := out.sent + [SendEvent(root, ACK_EVENT_MASK, reply)];
          out.sent := out.sent + [Flush];
        }
      }
    }

    /** wm_interface_is_de_ready. */
    method IsReady() returns (ready: bool)
      ensures ready == deIsReady
    {
      return deIsReady;
    }

    /**
     * The event loop handing a stream of events to the interface: the flag
     * ends up set exactly when it was set before or a readiness message
     * arrived, and the replies are one acknowledgement per such message.
     */
    method HandleAll(evs: seq<Event>, out: Outbox)
      modifies this`deIsReady, out
      ensures deIsReady == (old(deIsReady) || CountDeReady(evs, deReady) > 0)
      ensures out.sent == old(out.sent) + Replies(evs, root, wmReady, deReady)
    {
      var i := 0;
      while i < |evs|
        invariant 0 <= i <= |evs|
        invariant deIsReady == (old(deIsReady) || CountDeReady(evs[..i], deReady) > 0)
        invariant out.sent == old(out.sent) + Replies(evs[..i], root, wmReady, deReady)
      {
        assert evs[..i + 1][..i] == evs[..i];
        HandleMessage(evs[i], out);
        i := i + 1;
      }
      assert evs[..i] == evs;
    }
  }
}
