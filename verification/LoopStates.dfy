/** The move states that belong to the loop being checked: those collected at its breaks and
    continues, and the one at its start. */
module LoopStates {
  import opened Ast
  import opened MoveSpec
  import opened MoveList

  ghost function OptMoved(s: MoveState?): Option<set<Name>>
    reads s
  {
    if s == null then None else Some(s.moved)
  }

  /** The fields `loop_break_state`, `loop_continue_state` and `loop_start_state`, which are saved
      and put back together when a loop is entered and left. */
  class LoopStates {
    var breakState: MoveState?
    var continueState: MoveState?
    var startState: MoveState?
    /** All the storage of the three states, and more that they have had. */
    ghost var repr: set<object>
    /** Their MOVED paths. */
    ghost var brk: Option<set<Name>>
    ghost var cont: Option<set<Name>>
    ghost var start: Option<set<Name>>

    /** `s` is one of the states: it lies inside, and `o` are its MOVED paths. */
    ghost predicate Holds(s: MoveState?, o: Option<set<Name>>)
      reads this, repr
    {
      if s == null then o.None?
      else s in repr && s.repr <= repr && this !in s.repr && s.Valid() && o == Some(s.moved)
    }

    /** The three states share no entry with each other. */
    ghost predicate Valid()
      reads this, repr
    {
      && this in repr
      && Holds(breakState, brk) && Holds(continueState, cont) && Holds(startState, start)
      && (breakState != null && continueState != null ==> breakState.repr !! continueState.repr)
      && (breakState != null && startState != null ==> breakState.repr !! startState.repr)
      && (continueState != null && startState != null ==> continueState.repr !! startState.repr)
    }

    /** Nothing collected; the start is a clone of `at`. */
    constructor (at: MoveState?)
      requires ValidOpt(at)
      ensures Valid() && fresh(repr) && brk == None && cont == None && start == OptMoved(at)
    {
      breakState, continueState, brk, cont := null, null, None, None;
      if at == null {
        startState, start := null, None;
        repr := {this};
      } else {
        var s := at.Clone();
        startState, start := s, Some(s.moved);
        repr := {this} + s.repr;
      }
    }

    /** `move_state_merge_into` the state collected from breaks. */
    method CollectBreak(src: MoveState)
      requires Valid() && src.Valid() && src.repr !! repr
      modifies repr
      ensures Valid() && fresh(repr - old(repr))
      ensures brk == Merged(old(brk), src.moved) && cont == old(cont) && start == old(start)
    {
      var s := MergeInto(breakState, src);
      breakState, brk := s, Some(s.moved);
      repr := repr + s.repr;
    }

    /** `move_state_merge_into` the state collected from continues. */
    method CollectContinue(src: MoveState)
      requires Valid() && src.Valid() && src.repr !! repr
      modifies repr
      ensures Valid() && fresh(repr - old(repr))
      ensures cont == Merged(old(cont), src.moved) && brk == old(brk) && start == old(start)
    {
      var s := MergeInto(continueState, src);
      continueState, cont := s, Some(s.moved);
      repr := repr + s.repr;
    }

    /** The second pass starts with nothing collected. */
    method StartOver()
      requires Valid()
      modifies this
      ensures Valid() && repr == old(repr) && brk == None && cont == None && start == old(start)
    {
      breakState, continueState, brk, cont := null, null, None, None;
    }

    /** The start of the loop is where the checker is now. */
    method RecordStart(at: MoveState)
      requires Valid() && at.Valid()
      modifies this
      ensures Valid() && fresh(repr - old(repr)) && brk == old(brk) && cont == old(cont) && start == Some(at.moved)
    {
      var s := at.Clone();
      startState, start := s, Some(s.moved);
      repr := repr + s.repr;
    }

    method MovedAtStart(path: Name) returns (moved: bool)
      requires Valid()
      ensures moved == (start.Some? && path in start.value)
    {
      moved := false;
      if startState != null {
        var status := startState.GetStatus(path);
        moved := status == MOVED;
      }
    }
  }
}
