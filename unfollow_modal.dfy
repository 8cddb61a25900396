/** The unfollow-confirmation modal state of the social clone: whether it
    is open, and the id and username of the user it asks about. */
module UnfollowModal {
  /** The state record. */
  datatype ModalState = ModalState(isOpen: bool, userId: string, username: string)

  /** The initial state, which `closeModal` also restores. */
  const Closed := ModalState(false, "", "")

  /** A closed modal remembers no user. */
  predicate Consistent(m: ModalState) {
    !m.isOpen ==> m.userId == "" && m.username == ""
  }

  /** `openModal(userId, username)`: the new record holds exactly the given
      id and name, whatever the modal held before. */
  function Open(m: ModalState, userId: string, username: string): (r: ModalState)
    ensures r.isOpen && r.userId == userId && r.username == username
    ensures Consistent(r)
  {
    ModalState(true, userId, username)
  }

  /** `closeModal`: back to the initial state from any state. */
  function Close(m: ModalState): (r: ModalState)
    ensures !r.isOpen && Consistent(r)
    ensures r == Closed
  {
    Closed
  }

  /** Closing twice is closing once, and opening after any state forgets
      that state. */
  lemma CloseIdempotent(m: ModalState, m': ModalState, userId: string, username: string)
    ensures Close(Close(m)) == Close(m)
    ensures Open(m, userId, username) == Open(m', userId, username)
  {
  }

  /** The component's state slot; `setModal` replaces the whole record. */
  class Modal {
    var modal: ModalState

    constructor()
      ensures modal == Closed
    {
      modal := Closed;
    }

    method OpenModal(userId: string, username: string)
      modifies this
      ensures modal == Open(old(modal), userId, username)
    {
      modal := ModalState(true, userId, username);
    }

    method CloseModal()
      modifies this
      ensures modal == Close(old(modal))
    {
      modal := ModalState(false, "", "");
    }
  }
}
