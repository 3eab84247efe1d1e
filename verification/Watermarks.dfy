/** WriteWatermarks of transport.pyx: write-buffer limits and the pause/resume hysteresis towards the protocol. */
module Watermarks {
  import opened Prelude

  const DEFAULT_HIGH := 64 * 1024

  /** A flow-control callback made on the protocol. */
  datatype Signal = PauseWriting | ResumeWriting

  /** pause_writing and resume_writing alternate, starting with pause_writing. */
  ghost predicate Alternates(signals: seq<Signal>) {
    forall i :: 0 <= i < |signals| ==> (signals[i] == PauseWriting <==> i % 2 == 0)
  }

  /** The limits that WriteWatermarks derives when one or both arguments are omitted. */
  function EffectiveHigh(high: Option<int>, low: Option<int>): int {
    match high
    case Some(h) => h
    case None => if low.None? then DEFAULT_HIGH else 4 * low.value
  }

  function EffectiveLow(high: Option<int>, low: Option<int>): int {
    match low
    case Some(l) => l
    case None => EffectiveHigh(high, low) / 4
  }

  /** The limits that are given are not below zero, and in order. */
  predicate InOrder(high: Option<int>, low: Option<int>) {
    && (high.Some? ==> high.value >= 0)
    && (low.Some? ==> low.value >= 0)
    && (high.Some? && low.Some? ==> high.value >= low.value)
  }

  /** The check on the derived limits refuses exactly what is given out of order or below zero. */
  lemma LimitsAccepted(high: Option<int>, low: Option<int>)
    ensures EffectiveHigh(high, low) >= EffectiveLow(high, low) >= 0 <==> InOrder(high, low)
  {
  }

  class WriteWatermarks {
    var highWater: int
    var lowWater: int
    var paused: bool
    ghost var signals: seq<Signal>

    ghost predicate Valid()
      reads this
    {
      && highWater >= lowWater >= 0
      && Alternates(signals)
      && (paused <==> |signals| % 2 == 1)
    }

    /** The hysteresis band: what the paused flag says about the amount of buffered data. */
    ghost predicate Settled(size: int)
      reads this
    {
      && (paused ==> size > lowWater)
      && (!paused ==> size <= highWater)
    }

    constructor ()
      ensures Valid() && !paused && signals == []
      ensures highWater == 65536 && lowWater == 16384
    {
      highWater, lowWater := EffectiveHigh(None, None), EffectiveLow(None, None);
      paused, signals := false, [];
    }

    /** maybe_pause_protocol. A callback that raises is reported to the loop and changes nothing here. */
    method MaybePauseProtocol(size: int)
      requires Valid()
      modifies this`paused, this`signals
      ensures Valid()
      ensures paused <==> old(paused) || size > highWater
      ensures signals == if !old(paused) && size > highWater then old(signals) + [PauseWriting] else old(signals)
    {
      if size <= highWater {
        return;
      }
      if !paused {
        paused := true;
        signals := signals + [PauseWriting];
      }
    }

    method MaybeResumeProtocol(size: int)
      requires Valid()
      modifies this`paused, this`signals
      ensures Valid()
      ensures paused <==> old(paused) && size > lowWater
      ensures signals == if old(paused) && size <= lowWater then old(signals) + [ResumeWriting] else old(signals)
    {
      if paused && size <= lowWater {
        paused := false;
        signals := signals + [ResumeWriting];
      }
    }

    /** set_write_buffer_limits: a ValueError leaves everything as it was. */
    method SetWriteBufferLimits(size: int, high: Option<int>, low: Option<int>) returns (err: Option<Exn>)
      requires Valid()
      modifies this
      ensures Valid()
      ensures err.None? <==> InOrder(high, low)
      ensures err.Some? ==> err.value == ValueErr && unchanged(this)
      ensures err.None? ==>
                && highWater == EffectiveHigh(high, low) && lowWater == EffectiveLow(high, low)
                && Settled(size)
      ensures err.None? ==> signals == old(signals) + (if paused == old(paused) then []
                                                       else if paused then [PauseWriting] else [ResumeWriting])
    {
      LimitsAccepted(high, low);
      var h := EffectiveHigh(high, low);
      var l := EffectiveLow(high, low);
      if !(h >= l >= 0) {
        return Some(ValueErr);
      }
      highWater, lowWater := h, l;
      MaybePauseProtocol(size);
      MaybeResumeProtocol(size);
      return None;
    }
  }
}
