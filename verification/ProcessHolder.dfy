/** The holder's lock sections, on the fields they update. */
module ProcessHolder {
  import opened Options
  import P = Processes

  class ProcessState {
    var holder: Option<nat>
    var next: nat

    /** This state inside a system, whose other parts the sections leave alone. */
    function In(s: P.System): P.System
      reads this
    {
      s.(holder := holder, next := next)
    }

    constructor ()
      ensures holder == P.Start().holder && next == P.Start().next
    {
      holder, next := None, 0;
    }

    method AllocGeneration() returns (g: nat)
      modifies this`next
      ensures forall s: P.System, i: nat :: P.In(s, i, P.Checked) ==>
                var t := P.ApplyTask(old(In(s)), P.Spawn(i, true));
                t.next == next && t.tasks[i] == P.Monitored(g)
    {
      g := next;
      next := next + 1;
    }

    /** A launch goes on only with an empty holder. */
    method IsFree() returns (free: bool)
      ensures forall s: P.System, i: nat :: i !in s.tasks ==>
                P.ApplyTask(In(s), P.Check(i)).tasks[i] == if free then P.Checked else P.Ended
    {
      free := holder.None?;
    }

    /** The replaced handle, if any, is dropped. */
    method Store(g: nat) returns (dropped: Option<nat>)
      modifies this`holder
      ensures dropped == old(holder)
      ensures forall s: P.System :: P.StoreHandle(old(In(s)), g).holder == holder
    {
      dropped := holder;
      holder := Some(g);
    }

    method Take() returns (taken: Option<nat>)
      modifies this`holder
      ensures taken == old(holder)
      ensures forall s: P.System, i: nat, how: P.How :: i !in s.tasks ==> P.TakeFor(old(In(s)), i, how).holder == holder
    {
      taken := holder;
      holder := None;
    }

    /** Takes whatever is held and puts another launch's handle back. */
    method TakeBack(g: nat) returns (taken: Option<nat>)
      modifies this`holder
      ensures taken == if old(holder) == Some(g) then Some(g) else None
      ensures forall s: P.System, i: nat :: P.ConnectEnds(old(In(s)), i, g, false).holder == holder
    {
      var other := holder;
      holder := None;
      if other == Some(g) {
        taken := other;
      } else {
        holder := other;
        taken := None;
      }
    }

    /** The monitor's guard: it emits only if it still owned the holder. */
    method ClearIfOwned(ghost s: P.System, g: nat, reaped: bool) returns (emit: bool)
      requires g in s.procs && s.procs[g].monitor == P.Reaped(reaped)
      modifies this`holder
      ensures
        var t := P.Clear(old(In(s)), g);
        holder == t.holder && emit == t.procs[g].monitor.Emitting?
    {
      emit := false;
      if holder == Some(g) {
        holder := None;
        emit := reaped;
      }
    }
  }
}
