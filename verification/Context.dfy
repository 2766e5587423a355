/** Cancellation and time, as the driver sees them: a context that may become done at any moment and then
    stays done, and a clock that never runs backwards. */
module Contexts {
  import opened Errors
  import opened FlashChip
  import opened Device

  /** For specifications only: the device whose use a context is to stop, and what it had done by then. */
  datatype Watch = Nothing | OnChip(chip: Chip) | OnDrive(drive: Drive)

  datatype Mark = Unmarked | ChipAt(log: seq<Step>, s: State) | DriveAt(transfers: seq<Transfer>)

  class Context {
    const steady: bool       // not cancelled from now on, and no time passes but what is slept
    var done: ContextError
    var now: nat
    ghost const watch: Watch
    ghost var mark: Mark     // what the watched device had done when the context became done
    ghost var naps: nat      // calls of Sleep

    constructor (steady: bool, ghost watch: Watch)
      ensures done == Nil && this.steady == steady && this.watch == watch
    {
      this.steady, this.watch := steady, watch;
      done, now, mark, naps := Nil, 0, Unmarked, 0;
    }

    ghost function Seen(): Mark
      reads (match watch case Nothing => {} case OnChip(chip) => {chip} case OnDrive(drive) => {drive})
    {
      match watch
      case Nothing => Unmarked
      case OnChip(chip) => ChipAt(chip.log, chip.s)
      case OnDrive(drive) => DriveAt(drive.log)
    }

    /** What any passage of time may do to a context. */
    twostate predicate Later()
      reads this
    {
      && old(now) <= now
      && (old(done) != Nil || steady ==> done == old(done))
      && (old(done) != Nil || done == Nil ==> mark == old(mark))
    }

    method Pass()
      modifies this`done, this`now, this`mark
      ensures Later() && (steady ==> now == old(now))
      ensures old(done) == Nil && done != Nil ==> mark == Seen()
    {
      if steady {
        return;
      }
      var elapsed: int := *;
      if elapsed > 0 {
        now := now + elapsed;
      }
      if done == Nil {
        if * {
          done := ErrCanceled;
        } else if * {
          done := ErrDeadlineExceeded;
        }
        if done != Nil {
          mark := Seen();
        }
      }
    }

    /** ctx.Err() */
    method Err() returns (e: ContextError)
      modifies this`done, this`now, this`mark
      ensures Later() && (steady ==> now == old(now))
      ensures old(done) == Nil && done != Nil ==> mark == Seen()
      ensures e == done
    {
      Pass();
      e := done;
    }

    /** Err() of a child context with the given deadline: whichever of the two ended it. */
    method ErrUntil(deadline: nat) returns (e: ContextError)
      modifies this`done, this`now, this`mark
      ensures Later() && (steady ==> now == old(now))
      ensures old(done) == Nil && done != Nil ==> mark == Seen()
      ensures e == Nil <==> done == Nil && now < deadline
      ensures e != Nil ==> (done != Nil && e == done) || (e == ErrDeadlineExceeded && now >= deadline)
    {
      Pass();
      var parentFirst: bool := *;
      e := if done != Nil && (parentFirst || now < deadline) then done
           else if now >= deadline then ErrDeadlineExceeded else Nil;
    }

    /** Waits until the child context is done or the period has elapsed. */
    method Sleep(period: nat, deadline: nat)
      modifies this
      ensures Later() && naps == old(naps) + 1
      ensures old(done) == Nil && done != Nil ==> mark == Seen()
      ensures now >= old(now) + period || done != Nil || now >= deadline
      ensures steady && done == Nil && old(now) < deadline ==> now == old(now) + period
    {
      Pass();
      if done == Nil && now < deadline {
        now := now + period;
      }
      naps := naps + 1;
    }
  }
}
