/**
 `verifyEmailToken` of packages/auth/src/EmailVerification.ts and what its used mark blocks.
 */
module EmailVerification {
  import opened LinkTokens
  import opened Wrappers

  datatype Claims = Claims(id: string, email: string, jti: nat, exp: nat)

  /** Every look at the clock of one verification, in order. */
  datatype Looks = Looks(expiry: nat, used: nat, stamp: nat, read: nat, set_: nat) {
    predicate InOrder() {
      expiry <= used <= stamp <= read <= set_
    }
  }

  function Mint(id: string, email: string, jti: nat, now: nat, minutes: nat): Claims {
    Claims(id, email, jti, SecondOf(now) + minutes * 60)
  }

  class User {
    const id: string
    var email: string
    var verifiedAt: Option<nat>

    constructor (id: string, email: string)
      ensures this.id == id && this.email == email && verifiedAt == None
    {
      this.id, this.email, verifiedAt := id, email, None;
    }

    /** No-op when already verified: the first stamp stays. */
    method MarkEmailAsVerified(now: nat)
      modifies this
      ensures verifiedAt == if old(verifiedAt).Some? then old(verifiedAt) else Some(now)
      ensures email == old(email)
    {
      if verifiedAt.None? {
        verifiedAt := Some(now);
      }
    }

    method UnverifyEmail()
      modifies this
      ensures verifiedAt == None && email == old(email)
    {
      verifiedAt := None;
    }

    predicate Acceptable(claims: Option<Claims>, cache: LinkCache, at: Looks)
      reads this, cache
    {
      && claims.Some? && SecondOf(at.expiry) <= claims.value.exp
      && claims.value.id == id && claims.value.email == email
      && !cache.Used(claims.value.jti, at.used)
    }

    /** `claims` is what the token decrypts to, `None` when it does not. */
    method VerifyEmailToken(claims: Option<Claims>, cache: LinkCache, at: Looks) returns (ok: bool)
      requires at.InOrder()
      modifies this, cache
      ensures ok == old(Acceptable(claims, cache, at))
      ensures email == old(email)
      ensures ok ==> verifiedAt.Some?
      ensures ok ==> verifiedAt == if old(verifiedAt).Some? then old(verifiedAt) else Some(at.stamp)
      ensures ok && cache.present ==>
                cache.marks == old(cache.marks)[claims.value.jti := (at.set_, MarkTtl(claims.value.exp, SecondOf(at.read)))]
      ensures ok && !cache.present ==> cache.marks == old(cache.marks)
      ensures !ok ==> verifiedAt == old(verifiedAt) && cache.marks == old(cache.marks)
    {
      if claims.None? {
        return false;
      }
      var c := claims.value;
      if SecondOf(at.expiry) > c.exp || c.id != id || c.email != email {
        return false;
      }
      if cache.Used(c.jti, at.used) {
        return false;
      }
      MarkEmailAsVerified(at.stamp);
      cache.MarkLinkUsed(c.jti, c.exp, at.read, at.set_);
      return true;
    }

    /**
     A link used once and, when that is done, tried again with its mark still in the cache: the second try can only
     succeed when the mark is looked up in the link's expiry second or later.
     */
    method UseTwice(claims: Claims, cache: LinkCache, first: Looks, second: Looks) returns (again: bool)
      requires first.InOrder() && second.InOrder() && first.set_ <= second.expiry
      requires cache.present && Acceptable(Some(claims), cache, first)
      modifies this, cache
      ensures again ==> SecondOf(second.expiry) <= claims.exp <= SecondOf(second.used)
      ensures again <==>
                && SecondOf(second.expiry) <= claims.exp
                && !Retained(cache.precision, first.set_, MarkTtl(claims.exp, SecondOf(first.read)), second.used)
    {
      var ok := VerifyEmailToken(Some(claims), cache, first);
      if SecondOf(second.used) < claims.exp {
        MarkCoversLink(cache.precision, claims.exp, first.read, first.set_, second.used);
      }
      again := VerifyEmailToken(Some(claims), cache, second);
    }
  }
}
