/**
 * The contract stores each vote under the string key
 * "<proposal id in decimal>-<voter>". The model keys votes by the pair
 * (proposal id, voter) instead; this module shows that nothing is lost: a
 * key built from a stored (non-negative) id determines both the id and the
 * voter, even against a lookup with a negative id.
 */
module VoteKeys {

  function DigitChar(d: nat): (c: char)
    requires d < 10
    ensures '0' <= c <= '9'
  {
    ('0' as int + d) as char
  }

  /** The decimal form of a natural number, without leading zeros. */
  function Decimal(n: nat): (s: string)
    ensures |s| >= 1
    ensures forall i :: 0 <= i < |s| ==> '0' <= s[i] <= '9'
    decreases n
  {
    if n < 10 then [DigitChar(n)] else Decimal(n / 10) + [DigitChar(n % 10)]
  }

  /** The decimal form of an integer: a minus sign before a negative one. */
  function IdString(id: int): (s: string)
    ensures |s| >= 1
    ensures s[0] == '-' <==> id < 0
    ensures 0 <= id ==> forall i :: 0 <= i < |s| ==> '0' <= s[i] <= '9'
  {
    if id < 0 then "-" + Decimal(-id) else Decimal(id)
  }

  /**
   * The key under which the contract stores the vote of `voter` on proposal
   * `id`: the id's decimal form, a '-', then the voter. For a non-negative id
   * the first '-' is that separator, so the key splits back into the two.
   */
  function VoteKey(id: int, voter: string): (k: string)
    ensures |k| == |IdString(id)| + 1 + |voter|
    ensures k[..|IdString(id)|] == IdString(id) && k[|IdString(id)|] == '-' && k[|IdString(id)| + 1..] == voter
    ensures 0 <= id ==> FirstDash(k) == |IdString(id)|
  {
    var k := IdString(id) + "-" + voter;
    if 0 <= id then FirstDashAfterDigits(IdString(id), voter); k else k
  }

  /** The position of the first '-' in s, or |s| when there is none. */
  function FirstDash(s: string): (k: nat)
    ensures k <= |s|
  {
    if s == [] then 0 else if s[0] == '-' then 0 else 1 + FirstDash(s[1..])
  }

  lemma {:induction false} FirstDashAfterDigits(digits: string, rest: string)
    requires forall i :: 0 <= i < |digits| ==> '0' <= digits[i] <= '9'
    ensures FirstDash(digits + "-" + rest) == |digits|
    decreases |digits|
  {
    if digits != [] {
      assert (digits + "-" + rest)[1..] == digits[1..] + "-" + rest;
      FirstDashAfterDigits(digits[1..], rest);
    } else {
      assert digits + "-" + rest == "-" + rest;
    }
  }

  lemma DecimalLength(n: nat)
    ensures |Decimal(n)| == 1 <==> n < 10
  {
  }

  /** Different numbers have different decimal forms. */
  lemma {:induction false} DecimalInjective(a: nat, b: nat)
    requires Decimal(a) == Decimal(b)
    ensures a == b
    decreases a
  {
    DecimalLength(a);
    DecimalLength(b);
    if 10 <= a {
      var da, db := Decimal(a), Decimal(b);
      assert da[..|da| - 1] == Decimal(a / 10);
      assert db[..|db| - 1] == Decimal(b / 10);
      DecimalInjective(a / 10, b / 10);
      assert DigitChar(a % 10) == da[|da| - 1] == DigitChar(b % 10);
    }
  }

  /** A key starts with '-' exactly when its id is negative. */
  lemma SignedKey(id: int, voter: string)
    ensures VoteKey(id, voter)[0] == '-' <==> id < 0
  {
    if 0 <= id {
      assert VoteKey(id, voter)[0] == Decimal(id)[0];
    }
  }

  /**
   * A key built from a non-negative id names one (id, voter) pair: if it
   * equals the key of any (id', voter'), the pairs are equal.
   */
  lemma {:induction false} VoteKeyInjective(id: nat, voter: string, id': int, voter': string)
    requires VoteKey(id, voter) == VoteKey(id', voter')
    ensures id == id' && voter == voter'
  {
    var k := VoteKey(id, voter);
    SignedKey(id, voter);
    SignedKey(id', voter');
    var a, b := Decimal(id), Decimal(id');
    FirstDashAfterDigits(a, voter);
    FirstDashAfterDigits(b, voter');
    assert |a| == |b|;
    assert a == k[..|a|] == b;
    DecimalInjective(id, id');
    assert voter == k[|a| + 1..] == voter';
  }
}
