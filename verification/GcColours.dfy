// The mark of a collectable object: what its byte says, not how the bits are laid out.

module GcColours {

  // Two whites, black, and the mark of objects never collected.
  datatype Mark = Mark(white0: bool, white1: bool, black: bool, fixed: bool)

  predicate IsWhite(m: Mark) { m.white0 || m.white1 }

  predicate IsGray(m: Mark) { !m.black && !IsWhite(m) }

  // `second` tells which white is current; an object in the other white is dead.
  predicate HasDeadWhite(second: bool, m: Mark) { if second then m.white0 else m.white1 }

  function MakeWhite(second: bool, m: Mark): Mark { Mark(!second, second, false, m.fixed) }

  function ToGray(m: Mark): Mark { m.(white0 := false, white1 := false) }

  function ToBlack(m: Mark): Mark { m.(black := true) }

  function BackToGray(m: Mark): Mark { m.(black := false) }

  function ChangeWhite(m: Mark): Mark { m.(white0 := !m.white0, white1 := !m.white1) }

  // The sweeper keeps an object that is fixed or not in the other white.
  predicate Survives(second: bool, m: Mark) { m.fixed || !HasDeadWhite(second, m) }
}
