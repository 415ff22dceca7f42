/** Asset labels of the form `format!("{prefix}{index}")`: a fixed prefix
    followed by the decimal digits of an index, as Rust's `Display` for
    `usize`/`u32` writes them (no sign, no leading zeros). */
module Labels {

  /** The character of one decimal digit. */
  function DigitChar(d: nat): (c: char)
    requires d < 10
    ensures '0' <= c <= '9'
  {
    "0123456789"[d]
  }

  /** The value of one decimal digit character. */
  function DigitValue(c: char): (d: nat)
    requires '0' <= c <= '9'
    ensures d < 10
  {
    (c as int - '0' as int) as nat
  }

  predicate IsDigits(s: string) {
    forall k :: 0 <= k < |s| ==> '0' <= s[k] <= '9'
  }

  /** Decimal text of `n`, most significant digit first. */
  function NatToString(n: nat): (s: string)
    ensures |s| >= 1 && IsDigits(s)
    ensures n < 10 <==> |s| == 1
  {
    if n < 10 then [DigitChar(n)] else NatToString(n / 10) + [DigitChar(n % 10)]
  }

  /** Reads a string of decimal digits back as a number (the inverse of NatToString). */
  function DecimalValue(s: string): nat
    requires IsDigits(s)
  {
    if |s| == 0 then 0 else 10 * DecimalValue(s[..|s| - 1]) + DigitValue(s[|s| - 1])
  }

  /** Reading the text of `n` gives `n` back. */
  lemma {:induction false} DecimalValueOfNatToString(n: nat)
    ensures DecimalValue(NatToString(n)) == n
  {
    var s := NatToString(n);
    if n < 10 {
      assert s[..0] == [];
    } else {
      var p := NatToString(n / 10);
      assert s[..|s| - 1] == p;
      DecimalValueOfNatToString(n / 10);
    }
  }

  /** Different indices never print the same. */
  lemma NatToStringInjective(n: nat, m: nat)
    requires NatToString(n) == NatToString(m)
    ensures n == m
  {
    DecimalValueOfNatToString(n);
    DecimalValueOfNatToString(m);
  }

  /** The label `prefix` + decimal text of `index`. */
  function Label(prefix: string, index: nat): (l: string)
    ensures |l| > |prefix| && l[..|prefix|] == prefix
    ensures IsDigits(l[|prefix|..]) && DecimalValue(l[|prefix|..]) == index
  {
    var l := prefix + NatToString(index);
    assert l[|prefix|..] == NatToString(index);
    DecimalValueOfNatToString(index);
    l
  }

  /** Within one family of labels, the label determines the index. */
  lemma LabelInjective(prefix: string, i: nat, j: nat)
    requires Label(prefix, i) == Label(prefix, j)
    ensures i == j
  {
  }

  /** Two families whose prefixes differ at some common position never share a label. */
  lemma LabelFamiliesDisjoint(p: string, q: string, k: nat, i: nat, j: nat)
    requires k < |p| && k < |q| && p[k] != q[k]
    ensures Label(p, i) != Label(q, j)
  {
    assert Label(p, i)[k] == p[k];
    assert Label(q, j)[k] == q[k];
  }
}
