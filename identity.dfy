/** Identifiers: the shape of a generated uid, the favorite document key, and the nickname
    given to a new account. The device hash itself (HMAC-SHA256 under the server secret) is
    not defined here: the store receives it as a function value. */
module Identity {

  type Uid = string

  /** generateRandomUID: 16 random bytes written as lowercase hexadecimal. */
  const UidLength: nat := 32

  predicate IsHexDigit(c: char) {
    '0' <= c <= '9' || 'a' <= c <= 'f'
  }

  predicate IsGeneratedUid(u: Uid) {
    |u| == UidLength && forall i :: 0 <= i < |u| ==> IsHexDigit(u[i])
  }

  /** The favorites document id `${uid}_${newsId}`. */
  function FavoriteKey(uid: Uid, newsId: string): (k: string)
    ensures |k| == |uid| + 1 + |newsId|
  {
    uid + "_" + newsId
  }

  /** Two favorite keys built from uids of the same length are equal only when both the uid
      and the news id agree: an underscore inside a news id cannot make one user's key
      collide with another's. */
  lemma FavoriteKeyInjective(u1: Uid, n1: string, u2: Uid, n2: string)
    requires |u1| == |u2|
    requires FavoriteKey(u1, n1) == FavoriteKey(u2, n2)
    ensures u1 == u2 && n1 == n2
  {
    var k := FavoriteKey(u1, n1);
    assert u1 == k[..|u1|] == u2;
    assert n1 == k[|u1| + 1..] == n2;
  }

  /** Decimal representation of a natural number, as JavaScript's template literal prints it. */
  function Decimal(n: nat): (s: string)
    ensures |s| >= 1
    ensures forall i :: 0 <= i < |s| ==> '0' <= s[i] <= '9'
  {
    if n < 10 then [Digit(n)] else Decimal(n / 10) + [Digit(n % 10)]
  }

  function Digit(d: nat): (c: char)
    requires d < 10
    ensures '0' <= c <= '9'
  {
    ['0', '1', '2', '3', '4', '5', '6', '7', '8', '9'][d]
  }

  function Pow10(k: nat): (p: nat)
    ensures p >= 1
  {
    if k == 0 then 1 else 10 * Pow10(k - 1)
  }

  /** A number below 10^k has at most k decimal digits. */
  lemma {:induction false} DecimalLength(n: nat, k: nat)
    requires 1 <= k && n < Pow10(k)
    ensures |Decimal(n)| <= k
  {
    if n >= 10 {
      assert n / 10 < Pow10(k - 1);
      DecimalLength(n / 10, k - 1);
    }
  }

  /** The prefix "익명" ("anonymous") of every generated nickname. */
  const AnonymousPrefix: string := "\U{C775}\U{BA85}"

  /** The nickname of a new account: the prefix followed by `Date.now() % 100000`. */
  function GeneratedNickname(clockMillis: nat): string {
    AnonymousPrefix + Decimal(clockMillis % 100000)
  }

  /** Every generated nickname has between 3 and 7 characters. */
  lemma GeneratedNicknameLength(clockMillis: nat)
    ensures 3 <= |GeneratedNickname(clockMillis)| <= 7
  {
    assert Pow10(5) == 100000;
    DecimalLength(clockMillis % 100000, 5);
  }
}
