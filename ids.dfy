/** Row identifiers. The database generates a fresh string id for every row
    it inserts; the model draws them from a counter, `GenId(n) = "c" + the
    decimal digits of n`, which stands in for the generator and is injective. */
module Ids {

  type Id = string

  function DigitChar(d: nat): (c: char)
    requires d < 10
    ensures '0' <= c <= '9'
  {
    "0123456789"[d]
  }

  function DigitValue(c: char): nat {
    if '0' <= c <= '9' then (c as int - '0' as int) as nat else 0
  }

  /** The decimal representation of `n`, most significant digit first. */
  function Decimal(n: nat): (r: string)
    ensures |r| >= 1
    decreases n
  {
    if n < 10 then [DigitChar(n)] else Decimal(n / 10) + [DigitChar(n % 10)]
  }

  /** Reads a string of decimal digits back as a number. */
  function ParseDecimal(s: string): nat
    decreases |s|
  {
    if s == [] then 0 else ParseDecimal(s[..|s| - 1]) * 10 + DigitValue(s[|s| - 1])
  }

  lemma {:induction false} ParseDecimalOfDecimal(n: nat)
    ensures ParseDecimal(Decimal(n)) == n
    decreases n
  {
    var s := Decimal(n);
    if n < 10 {
      assert s[..|s| - 1] == [];
    } else {
      ParseDecimalOfDecimal(n / 10);
      assert s[..|s| - 1] == Decimal(n / 10);
      assert DigitValue(s[|s| - 1]) == n % 10;
    }
  }

  function GenId(n: nat): Id {
    "c" + Decimal(n)
  }

  /** Distinct counter values give distinct ids. */
  lemma GenIdInjective(m: nat, n: nat)
    ensures GenId(m) == GenId(n) ==> m == n
  {
    if GenId(m) == GenId(n) {
      assert Decimal(m) == GenId(m)[1..] == GenId(n)[1..] == Decimal(n);
      ParseDecimalOfDecimal(m);
      ParseDecimalOfDecimal(n);
    }
  }

  /** Later generated ids differ from this one. */
  lemma LaterIdsDiffer(n: nat)
    ensures forall m: nat :: m > n ==> GenId(m) != GenId(n)
  {
    forall m: nat | m > n ensures GenId(m) != GenId(n) {
      GenIdInjective(m, n);
    }
  }

  /** The ids the generator hands out from counter value `lo` up to, but
      not including, `hi`. */
  function IdRange(lo: nat, hi: nat): (r: set<Id>)
    ensures forall n: nat :: lo <= n < hi ==> GenId(n) in r
    decreases hi - lo
  {
    if hi <= lo then {} else {GenId(lo)} + IdRange(lo + 1, hi)
  }

  lemma {:induction false} IdRangeMembers(lo: nat, hi: nat, k: Id)
    ensures k in IdRange(lo, hi) ==> exists n: nat :: lo <= n < hi && k == GenId(n)
    decreases hi - lo
  {
    if lo < hi && k != GenId(lo) && k in IdRange(lo, hi) {
      IdRangeMembers(lo + 1, hi, k);
    }
  }

  /** The range holds exactly one id per counter value. */
  lemma {:induction false} IdRangeSize(lo: nat, hi: nat)
    requires lo <= hi
    ensures |IdRange(lo, hi)| == hi - lo
    decreases hi - lo
  {
    if lo < hi {
      IdRangeSize(lo + 1, hi);
      if GenId(lo) in IdRange(lo + 1, hi) {
        IdRangeMembers(lo + 1, hi, GenId(lo));
        var n: nat :| lo + 1 <= n < hi && GenId(lo) == GenId(n);
        GenIdInjective(lo, n);
      }
    }
  }
}
