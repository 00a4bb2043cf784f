/** Parser actions as the generator lists them, state by state. */
module ActionLists {
  import opened Sorting

  datatype ActionType =
    | SHIFT | ACCEPT | REDUCE | ERROR
    | SSCONFLICT | SRCONFLICT | RRCONFLICT | SH_RESOLVED | RD_RESOLVED | NOT_USED

  /** `arg` is the target state of a shift and the rule of a reduce. */
  datatype Action = Action(sp: nat, typ: ActionType, arg: nat)

  /** The enumeration's value. */
  function TypeCode(t: ActionType): nat {
    match t
    case SHIFT => 0 case ACCEPT => 1 case REDUCE => 2 case ERROR => 3
    case SSCONFLICT => 4 case SRCONFLICT => 5 case RRCONFLICT => 6
    case SH_RESOLVED => 7 case RD_RESOLVED => 8 case NOT_USED => 9
  }

  /** `actioncmp`. */
  function ActionCmp(a: Action, b: Action): int {
    if a.sp != b.sp then a.sp - b.sp
    else if TypeCode(a.typ) != TypeCode(b.typ) then TypeCode(a.typ) - TypeCode(b.typ)
    else if a.typ == REDUCE then a.arg - b.arg
    else 0
  }

  lemma ActionCmpPreorder()
    ensures TotalPreorder(ActionCmp)
  {
  }

  /** The transitions a list's shifts stand for. */
  function TransOf(ap: seq<Action>): map<nat, nat> {
    if ap == [] then map[]
    else if ap[0].typ == SHIFT then TransOf(ap[1..])[ap[0].sp := ap[0].arg]
    else TransOf(ap[1..])
  }

  predicate DistinctSymbols(ap: seq<Action>) {
    forall i, j :: 0 <= i < j < |ap| ==> ap[i].sp != ap[j].sp
  }

  lemma {:induction false} TransOfExact(ap: seq<Action>, x: nat, k: nat)
    requires DistinctSymbols(ap)
    ensures Action(x, SHIFT, k) in ap <==> x in TransOf(ap) && TransOf(ap)[x] == k
  {
    if ap != [] {
      var tail := ap[1..];
      TransOfExact(tail, x, k);
      assert Action(x, SHIFT, k) in ap <==> Action(x, SHIFT, k) == ap[0] || Action(x, SHIFT, k) in tail;
      if ap[0].typ == SHIFT && ap[0].sp == x && x in TransOf(tail) {
        TransOfExact(tail, x, TransOf(tail)[x]);
      }
    }
  }
}
