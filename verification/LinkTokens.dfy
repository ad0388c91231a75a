/**
 Primitives of the signed links in packages/auth/src/linkTokens.ts: the URL-safe form of a token and the
 single-use mark, whose lifetime is computed in whole seconds and kept by a cache that may count in
 milliseconds or in seconds. Encryption is not modelled: a token is its claims.
 */
module LinkTokens {

  // ---------------------------------------------------------------- URL-safe text

  function ToUrlChar(c: char): char {
    if c == '+' then '-' else if c == '/' then '_' else c
  }

  function FromUrlChar(c: char): char {
    if c == '-' then '+' else if c == '_' then '/' else c
  }

  function Each(s: string, f: char -> char): (r: string)
    ensures |r| == |s| && forall i :: 0 <= i < |s| ==> r[i] == f(s[i])
  {
    seq(|s|, i requires 0 <= i < |s| => f(s[i]))
  }

  function WithoutPadding(s: string): string {
    if s != [] && s[|s| - 1] == '=' then WithoutPadding(s[..|s| - 1]) else s
  }

  function ToUrlSafe(s: string): string {
    WithoutPadding(Each(s, ToUrlChar))
  }

  function FromUrlSafe(token: string): string {
    Each(token, FromUrlChar)
  }

  /** Standard base64 text uses neither of the URL-safe characters. */
  predicate StandardBase64(s: string) {
    '-' !in s && '_' !in s
  }

  lemma {:induction false} PaddingOnlyAtEnd(s: string)
    requires StandardBase64(s)
    ensures Each(WithoutPadding(Each(s, ToUrlChar)), FromUrlChar) == WithoutPadding(s)
  {
    var t := Each(s, ToUrlChar);
    if s != [] && s[|s| - 1] == '=' {
      var init := s[..|s| - 1];
      assert t[..|t| - 1] == Each(init, ToUrlChar);
      PaddingOnlyAtEnd(init);
    } else {
      forall i | 0 <= i < |s| ensures FromUrlChar(ToUrlChar(s[i])) == s[i] {
        assert s[i] in s;
      }
      assert Each(t, FromUrlChar) == s;
    }
  }

  /** Reading a link's token back gives the base64 text without its padding. */
  lemma UrlSafeRoundTrip(s: string)
    requires StandardBase64(s)
    ensures FromUrlSafe(ToUrlSafe(s)) == WithoutPadding(s)
  {
    PaddingOnlyAtEnd(s);
  }

  // ---------------------------------------------------------------- the used mark

  /** `nowSeconds()` at a clock reading in milliseconds. */
  function SecondOf(ms: nat): nat {
    ms / 1000
  }

  function MarkTtl(exp: int, now: int): (ttl: nat)
    ensures ttl >= 1 && ttl >= exp - now
  {
    if exp - now > 1 then exp - now else 1
  }

  /** How a cache keeps time: the memory store to the millisecond, the SQL store to the second. */
  datatype Precision = Milliseconds | Seconds

  /** Whether a value set at `set` for `ttl` seconds is still there at `look`. */
  predicate Retained(p: Precision, set_: nat, ttl: nat, look: nat) {
    match p
    case Milliseconds => look < set_ + ttl * 1000
    case Seconds => SecondOf(look) < SecondOf(set_) + ttl
  }

  /** A mark made no later than the link's expiry blocks every later look before the expiry second. */
  lemma MarkCoversLink(p: Precision, exp: nat, read: nat, set_: nat, look: nat)
    requires read <= set_ <= look && SecondOf(look) < exp
    ensures Retained(p, set_, MarkTtl(exp, SecondOf(read)), look)
  {
    assert read < (SecondOf(read) + 1) * 1000 && SecondOf(read) * 1000 <= read;
    assert look < exp * 1000;
  }

  /**
   In the expiry second itself, when the link is still accepted, a mark set in an earlier second is there to the
   millisecond at which it was set in a cache that counts milliseconds, and gone in one that counts seconds.
   A mark made in the expiry second blocks the rest of it in both.
   */
  lemma ExpirySecond(exp: nat, used: nat, look: nat)
    requires SecondOf(used) <= exp && SecondOf(look) == exp && used <= look
    ensures var ttl := MarkTtl(exp, SecondOf(used));
            && (Retained(Milliseconds, used, ttl, look) <==> SecondOf(used) == exp || look % 1000 < used % 1000)
            && (Retained(Seconds, used, ttl, look) <==> SecondOf(used) == exp)
  {
    assert used == SecondOf(used) * 1000 + used % 1000;
    assert look == exp * 1000 + look % 1000;
  }

  /** The cache of consumed links; entries may also be lost. */
  class LinkCache {
    const precision: Precision
    const present: bool
    /** When each mark was set, and for how many seconds. */
    var marks: map<nat, (nat, nat)>

    constructor (precision: Precision, present: bool)
      ensures this.precision == precision && this.present == present && marks == map[]
    {
      this.precision, this.present, marks := precision, present, map[];
    }

    predicate Used(jti: nat, look: nat)
      reads this
    {
      present && jti in marks && Retained(precision, marks[jti].0, marks[jti].1, look)
    }

    /** `markLinkUsed`: the remaining lifetime is read first, the entry is set at `set_`. */
    method MarkLinkUsed(jti: nat, exp: int, read: nat, set_: nat)
      modifies this
      ensures marks == if present then old(marks)[jti := (set_, MarkTtl(exp, SecondOf(read)))] else old(marks)
    {
      var ttl := MarkTtl(exp, SecondOf(read));
      if present {
        marks := marks[jti := (set_, ttl)];
      }
    }
  }
}
