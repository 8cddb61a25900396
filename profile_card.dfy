/** The profile card of the social clone: a background colour hashed from
    the user's id with JavaScript's 32-bit shift, the follow button's
    handler (follow at once, or ask through the unfollow modal first), the
    modal's confirm action, and whether the button is shown at all. */
module ProfileCard {
  import opened Common
  import UnfollowModal

  /** The eight background colours, in table order. */
  const Palette: seq<string> := ["bg-red-500", "bg-blue-500", "bg-green-500", "bg-yellow-500",
                                 "bg-purple-500", "bg-pink-500", "bg-indigo-500", "bg-orange-500"]

  const TwoTo31 := 0x8000_0000
  const TwoTo32 := 0x1_0000_0000

  /** ECMAScript ToInt32: the signed 32-bit integer congruent to `x`. */
  function Wrap32(x: int): (r: int)
    ensures -TwoTo31 <= r < TwoTo31
    ensures (r - x) % TwoTo32 == 0
  {
    (x + TwoTo31) % TwoTo32 - TwoTo31
  }

  /** `h << 5`: the operand is converted to 32 bits, shifted, and the result
      wrapped to 32 bits again. */
  function ShiftLeft5(h: int): int {
    Wrap32(Wrap32(h) * 32)
  }

  /** Converting the operand first makes no difference: the shift is the
      32-bit wrap of `32·h`. */
  lemma ShiftLeft5IsWrappedProduct(h: int)
    ensures ShiftLeft5(h) == Wrap32(32 * h)
  {
    var w := Wrap32(h);
    var k := (w - h) / TwoTo32;
    assert w == h + k * TwoTo32;
    assert 32 * w == 32 * h + (32 * k) * TwoTo32;
    WrapShift(32 * h, 32 * k);
  }

  /** Adding a multiple of 2^32 does not change the wrap. */
  lemma WrapShift(x: int, k: int)
    ensures Wrap32(x + k * TwoTo32) == Wrap32(x)
  {
    var q := (x + TwoTo31) / TwoTo32;
    var r := (x + TwoTo31) % TwoTo32;
    assert x + k * TwoTo32 + TwoTo31 == (q + k) * TwoTo32 + r;
  }

  /** The value of `hash` after the loop has read all of `s`. */
  function Hash(s: string): int {
    if |s| == 0 then 0
    else
      var h := Hash(s[..|s| - 1]);
      s[|s| - 1] as int + (ShiftLeft5(h) - h)
  }

  /** One step of the loop adds the character code and `(h << 5) - h`, so
      it moves the hash's magnitude by less than the largest character code
      plus 2^31, that is 0x8011_0000. */
  lemma HashStep(s: string, n: int)
    requires |s| > 0
    requires -n <= Hash(s[..|s| - 1]) <= n
    ensures -(n + 0x8011_0000) <= Hash(s) <= n + 0x8011_0000
  {
    var h := Hash(s[..|s| - 1]);
    ShiftRange(h);
    assert 0 <= s[|s| - 1] as int < 0x11_0000;
    assert Hash(s) == s[|s| - 1] as int + (ShiftLeft5(h) - h);
  }

  lemma ShiftRange(h: int)
    ensures -TwoTo31 <= ShiftLeft5(h) < TwoTo31
  {
    var w := Wrap32(h) * 32;
    assert ShiftLeft5(h) == Wrap32(w);
  }

  /** The hash grows at most linearly with the length of the id, so for any
      id of fewer than 2^21 characters it stays well inside the range where
      a JavaScript number holds integers exactly. */
  lemma {:induction false} HashBound(s: string)
    ensures -(|s| * 0x8011_0000) <= Hash(s) <= |s| * 0x8011_0000
  {
    if |s| > 0 {
      HashBound(s[..|s| - 1]);
      HashStep(s, (|s| - 1) * 0x8011_0000);
    }
  }

  function Abs(x: int): nat {
    if x < 0 then -x else x
  }

  /** `getRandomColor(userId)`: the loop over the id's characters, then the
      table entry at the hash's magnitude modulo eight. */
  method RandomColor(userId: string) returns (color: string)
    ensures color == Palette[Abs(Hash(userId)) % |Palette|]
    ensures color in Palette
  {
    var hash := 0;
    for i := 0 to |userId|
      invariant hash == Hash(userId[..i])
    {
      assert userId[..i + 1][..i] == userId[..i];
      hash := userId[i] as int + (ShiftLeft5(hash) - hash);
    }
    assert userId[..|userId|] == userId;
    color := Palette[Abs(hash) % |Palette|];
  }

  /** The empty id hashes to zero: red. */
  lemma EmptyIdIsRed()
    ensures Palette[Abs(Hash("")) % |Palette|] == "bg-red-500"
  {
  }

  /** The user a card shows; `isFollowing` absent is `false`. */
  datatype CardUser = CardUser(id: string, name: string, username: string, email: string, isFollowing: bool)

  /** The button is hidden on the signed-in user's own card, and shown when
      there is no session. */
  function ShowsFollowButton(sessionEmail: Option<string>, user: CardUser): (shown: bool)
    ensures sessionEmail.None? ==> shown
    ensures !shown <==> sessionEmail == Some(user.email)
  {
    !(sessionEmail.Some? && sessionEmail.value == user.email)
  }

  /** `handleFollow`: on a followed user, open the unfollow modal about that
      user and call nothing; otherwise call `onFollow(user.id)` and leave the
      modal alone. `followed` is the argument `onFollow` received, if it was
      called. */
  method HandleFollow(modal: UnfollowModal.Modal, user: CardUser) returns (followed: Option<string>)
    modifies modal
    ensures user.isFollowing ==>
              followed.None? && modal.modal == UnfollowModal.Open(old(modal.modal), user.id, user.username)
    ensures !user.isFollowing ==> followed == Some(user.id) && modal.modal == old(modal.modal)
  {
    if user.isFollowing {
      modal.OpenModal(user.id, user.username);
      followed := None;
    } else {
      followed := Some(user.id);
    }
  }

  /** The modal's confirm action: `onFollow` with the id the modal recorded. */
  method Confirm(modal: UnfollowModal.Modal) returns (followed: string)
    ensures followed == modal.modal.userId
  {
    followed := modal.modal.userId;
  }
}
