/**
 The mutable half of a turn (src/sandroid/api/routes.py): what the receive loop's PCM and stop
 handlers do to a `_TurnContext`, and the first half of `_cancel_turn`.
 */
module TurnContexts {
  import opened Bytes
  import opened Turn

  class TurnContext {
    const maxAudioBytes: nat
    var cancelled: bool
    var queue: seq<Item>
    var audioAccum: bytes
    var audioOverflow: bool
    var pumpDone: bool
    var pumpAsked: bool

    /** The fields are those of the turn `t`. */
    ghost predicate Shows(t: Turn)
      reads this
    {
      cancelled == t.cancelled && queue == t.inbox && audioAccum == t.audio && audioOverflow == t.overflow &&
      maxAudioBytes == t.cap && pumpDone == t.pump.Done? && pumpAsked == t.pumpAsked
    }

    constructor (id: int, cap: nat)
      ensures Shows(Opened(id, cap))
    {
      maxAudioBytes := cap;
      cancelled, audioOverflow, pumpDone, pumpAsked := false, false, false, false;
      queue, audioAccum := [], [];
    }

    method HandlePcm(data: bytes, ghost t: Turn)
      requires Shows(t)
      modifies this
      ensures Shows(Hears(t, data))
    {
      if cancelled {
        return;
      }
      if !audioOverflow {
        if |audioAccum| + |data| > maxAudioBytes {
          audioOverflow := true;
          audioAccum := [];
        } else {
          audioAccum := audioAccum + data;
        }
      }
      queue := queue + [Some(data)];
    }

    method HandleStop(ghost t: Turn)
      requires Shows(t)
      modifies this
      ensures Shows(EndsInput(t))
    {
      if cancelled {
        return;
      }
      queue := queue + [None];
    }

    /** `_cancel_turn`, up to the await, as `_abandon_active` calls it. */
    method Cancel(ghost t: Turn)
      requires Shows(t)
      modifies this
      ensures Shows(Cancels(t))
    {
      if !cancelled {
        cancelled := true;
        queue := queue + [None];
        pumpAsked := !pumpDone;
      }
    }
  }
}
