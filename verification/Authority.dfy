/** The terminal authority epoch that approvals, grants and the continuation lineage are issued under. */
module Authority {
  import opened Common

  datatype AuthorityEpoch = AuthorityEpoch(epoch: nat, revoked: bool)

  predicate IsCurrent(a: AuthorityEpoch, epoch: nat) {
    !a.revoked && a.epoch == epoch
  }

  /** Revocation is terminal, and idempotent once done. */
  function Revoke(a: AuthorityEpoch): Option<AuthorityEpoch> {
    if a.revoked then Some(a)
    else if a.epoch + 1 > U64_MAX then None
    else Some(AuthorityEpoch(a.epoch + 1, true))
  }

  class AuthorityBinding {
    var epoch: nat
    var revoked: bool

    function Current(): AuthorityEpoch
      reads this
    {
      AuthorityEpoch(epoch, revoked)
    }

    constructor ()
      ensures Current() == AuthorityEpoch(0, false)
    {
      epoch, revoked := 0, false;
    }

    method RevokeAll() returns (ok: bool)
      modifies this
      ensures match Revoke(old(Current()))
              case Some(next) => ok && Current() == next
              case None => !ok && Current() == old(Current())
    {
      if !revoked {
        var next := CheckedAddU64(epoch, 1);
        if next.None? {
          return false;
        }
        epoch := next.value;
        revoked := true;
      }
      return true;
    }
  }
}
