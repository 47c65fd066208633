/** Products, quotients and remainders by repeated addition and subtraction, with the facts the
    other modules need of them. Reasoning with these keeps every proof linear; each comes with
    the lemma that it is the operator it stands for. */
module Arithmetic {

  /** n * x, by repeated addition. */
  function Times(n: nat, x: int): int {
    if n == 0 then 0 else x + Times(n - 1, x)
  }

  lemma {:induction false} TimesIsProduct(n: nat, x: int)
    ensures Times(n, x) == n * x
  {
    if n > 0 {
      TimesIsProduct(n - 1, x);
    }
  }

  lemma {:induction false} TimesAdds(n: nat, x: int, y: int)
    ensures Times(n, x + y) == Times(n, x) + Times(n, y)
  {
    if n > 0 {
      TimesAdds(n - 1, x, y);
    }
  }

  lemma {:induction false} TimesGrows(n: nat, x: int, y: int)
    requires x <= y
    ensures Times(n, x) <= Times(n, y)
    ensures n >= 1 && 0 <= y ==> Times(n, y) >= y
    ensures 0 <= y ==> Times(n, y) >= 0
  {
    if n > 0 {
      TimesGrows(n - 1, x, y);
    }
  }

  lemma {:induction false} TimesSplits(m: nat, n: nat, x: int)
    ensures Times(m + n, x) == Times(m, x) + Times(n, x)
  {
    if m > 0 {
      TimesSplits(m - 1, n, x);
    }
  }

  /** a / b of non-negative a, by repeated subtraction. */
  function Quotient(a: int, b: nat): (q: nat)
    requires a >= 0 && b >= 1
    decreases a
  {
    if a < b then 0 else 1 + Quotient(a - b, b)
  }

  lemma DivisionStep(a: int, b: int)
    requires b >= 1
    ensures (a - b) / b == a / b - 1
  {
    var gap := (a - b) / b - (a / b - 1);
    assert -b < b * gap < b by {
      assert b * gap == a % b - (a - b) % b;
    }
  }

  lemma {:induction false} QuotientIsDivision(a: int, b: nat)
    requires a >= 0 && b >= 1
    ensures Quotient(a, b) == a / b
    decreases a
  {
    if a >= b {
      QuotientIsDivision(a - b, b);
      DivisionStep(a, b);
    }
  }

  lemma {:induction false} QuotientBrackets(a: int, b: nat)
    requires a >= 0 && b >= 1
    ensures Times(b, Quotient(a, b)) <= a < Times(b, Quotient(a, b) + 1)
    decreases a
  {
    TimesIsProduct(b, 1);
    if a >= b {
      QuotientBrackets(a - b, b);
      TimesAdds(b, Quotient(a - b, b), 1);
      TimesAdds(b, Quotient(a, b), 1);
    } else {
      TimesIsProduct(b, 0);
    }
  }

  /** a % b, by repeated subtraction. */
  function Rest(a: nat, b: nat): (r: nat)
    requires b >= 1
    ensures r < b && (a < b ==> r == a)
  {
    if a < b then a else Rest(a - b, b)
  }

  lemma {:induction false} DivisionSplits(a: nat, b: nat)
    requires b >= 1
    ensures a == Times(Quotient(a, b), b) + Rest(a, b)
  {
    if a >= b {
      DivisionSplits(a - b, b);
    }
  }

  lemma RestIsModulo(a: nat, b: nat)
    requires b >= 1
    ensures Rest(a, b) == a % b
  {
    QuotientIsDivision(a, b);
    DivisionSplits(a, b);
    TimesIsProduct(a / b, b);
  }
}
