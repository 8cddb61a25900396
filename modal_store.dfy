/** The login/register modal store of the microservices copy of the social
    clone: two flags, each action setting one or both of them. The model
    gives each action as a function on the pair of flags, proves what the
    store promises about them, and keeps the flags in a class whose methods
    follow those functions. */
module ModalStore {
  /** The store's two flags. */
  datatype Modals = Modals(loginModal: bool, registerModal: bool)

  /** The store's actions. */
  datatype Action = OpenLogin | CloseLogin | OpenRegister | CloseRegister | ToggleModals

  /** Both modals closed. */
  const Initial := Modals(false, false)

  /** At most one modal is open. */
  predicate NeverBoth(m: Modals) {
    !(m.loginModal && m.registerModal)
  }

  /** Exactly one modal is open. */
  predicate ExactlyOne(m: Modals) {
    m.loginModal != m.registerModal
  }

  /** The flags after one action. Every action leaves at most one modal
      open, whatever the flags were before; closing touches only its own
      flag; toggling swaps an open modal for the other and otherwise does
      nothing. */
  function Apply(m: Modals, a: Action): (r: Modals)
    ensures NeverBoth(r)
    ensures a == OpenLogin ==> r.loginModal && !r.registerModal
    ensures a == OpenRegister ==> r.registerModal && !r.loginModal
    ensures a == CloseLogin ==> !r.loginModal && r.registerModal == m.registerModal
    ensures a == CloseRegister ==> !r.registerModal && r.loginModal == m.loginModal
    ensures a == ToggleModals && ExactlyOne(m) ==> ExactlyOne(r) && r.loginModal == m.registerModal
    ensures a == ToggleModals && !m.loginModal && !m.registerModal ==> r == m
  {
    match a
    case OpenLogin => Modals(true, false)
    case CloseLogin => m.(loginModal := false)
    case OpenRegister => Modals(false, true)
    case CloseRegister => m.(registerModal := false)
    case ToggleModals =>
      if m.loginModal then Modals(false, true)
      else if m.registerModal then Modals(true, false)
      else m
  }

  /** The flags after a sequence of actions, applied in order. */
  function Run(m: Modals, actions: seq<Action>): Modals
    decreases |actions|
  {
    if |actions| == 0 then m else Apply(Run(m, actions[..|actions| - 1]), actions[|actions| - 1])
  }

  /** From the initial state, no sequence of actions opens both modals. */
  lemma NeverBothReachable(actions: seq<Action>)
    ensures NeverBoth(Run(Initial, actions))
  {
  }

  /** Toggling twice with exactly one modal open comes back to that state. */
  lemma ToggleTwiceRestores(m: Modals)
    requires ExactlyOne(m)
    ensures Apply(Apply(m, ToggleModals), ToggleModals) == m
  {
  }

  /** The store itself. */
  class Store {
    var loginModal: bool
    var registerModal: bool

    function Snapshot(): (m: Modals)
      reads this
      ensures m.loginModal == loginModal && m.registerModal == registerModal
    {
      Modals(loginModal, registerModal)
    }

    constructor()
      ensures Snapshot() == Initial
    {
      loginModal := false;
      registerModal := false;
    }

    method OpenLogin()
      modifies this
      ensures Snapshot() == Apply(old(Snapshot()), Action.OpenLogin)
    {
      loginModal, registerModal := true, false;
    }

    method CloseLogin()
      modifies this
      ensures Snapshot() == Apply(old(Snapshot()), Action.CloseLogin)
    {
      loginModal := false;
    }

    method OpenRegister()
      modifies this
      ensures Snapshot() == Apply(old(Snapshot()), Action.OpenRegister)
    {
      registerModal, loginModal := true, false;
    }

    method CloseRegister()
      modifies this
      ensures Snapshot() == Apply(old(Snapshot()), Action.CloseRegister)
    {
      registerModal := false;
    }

    method ToggleModals()
      modifies this
      ensures Snapshot() == Apply(old(Snapshot()), Action.ToggleModals)
    {
      if loginModal {
        loginModal, registerModal := false, true;
      } else if registerModal {
        registerModal, loginModal := false, true;
      }
    }
  }
}
