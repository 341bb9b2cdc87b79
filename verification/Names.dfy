/** Lease owner names: the engine's WorkerID, a dash, and the worker's number. */
module Names {

  function Decimal(n: nat): (s: string)
    ensures |s| > 0 && '-' !in s
  {
    var digit := '0' + (n % 10) as char;
    if n < 10 then [digit] else Decimal(n / 10) + [digit]
  }

  function WorkerName(workerID: string, i: nat): string {
    workerID + "-" + Decimal(i)
  }

  lemma {:induction false} DecimalInjective(m: nat, n: nat)
    requires Decimal(m) == Decimal(n)
    ensures m == n
  {
    var s, t := Decimal(m), Decimal(n);
    assert s[|s| - 1] == '0' + (m % 10) as char && t[|t| - 1] == '0' + (n % 10) as char;
    if m >= 10 && n >= 10 {
      assert s[..|s| - 1] == Decimal(m / 10) && t[..|t| - 1] == Decimal(n / 10);
      DecimalInjective(m / 10, n / 10);
    }
  }

  lemma DashIsLast(p: string, i: nat, k: int)
    requires |p| <= k < |WorkerName(p, i)| && WorkerName(p, i)[k] == '-'
    ensures k == |p|
  {
  }

  /** Two workers share a name exactly when they have the same number under the same WorkerID. */
  lemma NamesAreDistinct(p: string, i: nat, q: string, j: nat)
    ensures WorkerName(p, i) == WorkerName(q, j) <==> p == q && i == j
  {
    var s, t := WorkerName(p, i), WorkerName(q, j);
    if s == t {
      assert s[|p|] == '-' && t[|q|] == '-';
      if |p| <= |q| {
        DashIsLast(p, i, |q|);
      } else {
        DashIsLast(q, j, |p|);
      }
      assert s[..|p|] == p && t[..|q|] == q;
      assert s[|p| + 1..] == Decimal(i) && t[|q| + 1..] == Decimal(j);
      DecimalInjective(i, j);
    }
  }
}
