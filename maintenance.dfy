/**
 * The maintenance switch: one global `mode` (A, B, C or D, initially D) that
 * the `maintenance` admin command sets for the users of a fixed allow-list,
 * and that decides how a `1d6` roll of those users comes out.
 */
module Maintenance {
  import opened Wrappers

  datatype Mode = A | B | C | D

  /** The user ids the bot trusts with the switch and whose `1d6` it rigs. */
  const AllowList: seq<int> := [707866373602148363, 1023478831560007732, 1158593099556204555]

  predicate Allowed(user: int) {
    user in AllowList
  }

  /** The value of the `evaluate` choice that selects each mode. */
  function Name(m: Mode): string {
    match m
    case A => "A"
    case B => "B"
    case C => "C"
    case D => "D"
  }

  /** How each mode is described to the admin: the faces a rigged `1d6` shows. */
  function Label(m: Mode): string {
    match m
    case A => "(1,2,3,4)"
    case B => "(5)"
    case C => "(6)"
    case D => "(all)"
  }

  /** The mode a choice selects; any other string selects none. */
  function ParseChoice(choice: string): (r: Option<Mode>)
    ensures r.Some? ==> Name(r.value) == choice
    ensures forall m: Mode :: choice == Name(m) ==> r == Some(m)
  {
    if choice == "A" then Some(A)
    else if choice == "B" then Some(B)
    else if choice == "C" then Some(C)
    else if choice == "D" then Some(D)
    else None
  }

  datatype Reply = AlreadyOn(mode: Mode) | TurnedOn(mode: Mode) | NoPermission

  /** The ephemeral message each reply sends. */
  function ReplyText(r: Reply): string {
    match r
    case AlreadyOn(m) => "Mode **" + Name(m) + "** " + Label(m) + " is already turned on!"
    case TurnedOn(m) => "Successfully turned on mode **" + Name(m) + "** " + Label(m)
    case NoPermission => "You don't have permissions to use this command!"
  }

  /** Different replies are different messages, so the admin can tell what happened. */
  lemma ReplyTextInjective(r1: Reply, r2: Reply)
    requires ReplyText(r1) == ReplyText(r2)
    ensures r1 == r2
  {
    var t := ReplyText(r1);
    assert t[0] == ReplyText(r2)[0];
    match r1
    case AlreadyOn(m1) =>
      assert t[7] == Name(m1)[0];
      assert ReplyText(r2)[7] == Name(r2.mode)[0];
    case TurnedOn(m1) =>
      assert t[30] == Name(m1)[0];
      assert ReplyText(r2)[30] == Name(r2.mode)[0];
    case NoPermission =>
  }

  /**
   * One use of the command from the old mode: the new mode and the reply, if
   * one is sent.
   */
  function Transition(mode: Mode, user: int, choice: string): (res: (Mode, Option<Reply>))
    ensures !Allowed(user) ==> res == (mode, Some(NoPermission))
    ensures Allowed(user) && ParseChoice(choice).None? ==> res == (mode, None)
    ensures forall x: Mode :: Allowed(user) && choice == Name(x) ==>
              res.0 == x && res.1.Some? &&
              (res.1.value == AlreadyOn(x) <==> mode == x) &&
              (res.1.value == TurnedOn(x) <==> mode != x)
  {
    if !Allowed(user) then (mode, Some(NoPermission))
    else match ParseChoice(choice)
      case None => (mode, None)
      case Some(x) => if mode == x then (mode, Some(AlreadyOn(x))) else (x, Some(TurnedOn(x)))
  }

  /** The permission-denied reply goes exactly to the users outside the allow-list. */
  lemma DeniedIffNotAllowed(mode: Mode, user: int, choice: string)
    ensures Transition(mode, user, choice).1 == Some(NoPermission) <==> !Allowed(user)
  {
    if Allowed(user) {
      match ParseChoice(choice)
      case None =>
      case Some(x) => assert choice == Name(x);
    }
  }

  /** Choosing the same mode twice leaves the state of choosing it once, and the second reply says so. */
  lemma TransitionIdempotent(mode: Mode, user: int, choice: string)
    ensures var once := Transition(mode, user, choice);
      var twice := Transition(once.0, user, choice);
      twice.0 == once.0 &&
      (once.1.Some? && once.1 != Some(NoPermission) ==> twice.1 == Some(AlreadyOn(once.0)))
  {
    match ParseChoice(choice)
    case None =>
    case Some(x) => assert choice == Name(x);
  }

  /** The global `mode` and the `maintenance` command that sets it. */
  class ModeSwitch {
    var mode: Mode

    constructor ()
      ensures mode == D
    {
      mode := D;
    }

    /** The command `maintenance` with choice `evaluate`, run by `user`; `None` when nothing is sent. */
    method Evaluate(user: int, evaluate: string) returns (reply: Option<Reply>)
      modifies this
      ensures (mode, reply) == Transition(old(mode), user, evaluate)
    {
      reply := None;
      if user in AllowList {
        if evaluate == "A" {
          if mode == A { reply := Some(AlreadyOn(A)); } else { reply := Some(TurnedOn(A)); mode := A; }
        }
        if evaluate == "B" {
          if mode == B { reply := Some(AlreadyOn(B)); } else { reply := Some(TurnedOn(B)); mode := B; }
        }
        if evaluate == "C" {
          if mode == C { reply := Some(AlreadyOn(C)); } else { reply := Some(TurnedOn(C)); mode := C; }
        }
        if evaluate == "D" {
          if mode == D { reply := Some(AlreadyOn(D)); } else { reply := Some(TurnedOn(D)); mode := D; }
        }
      } else {
        reply := Some(NoPermission);
      }
    }
  }
}
