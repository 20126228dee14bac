/**
 The label of a payment period: a word naming the periodicity followed by
 the decimal period number.
 */
module PeriodLabel {

  /** The decimal digit of `d`. */
  function Digit(d: nat): (c: char)
    requires d < 10
    ensures '0' <= c <= '9' && (c as int) - ('0' as int) == d
  {
    (('0' as int) + d) as char
  }

  ghost predicate IsDecimal(s: string)
  {
    |s| >= 1 && forall k :: 0 <= k < |s| ==> '0' <= s[k] <= '9'
  }

  /** The canonical decimal spelling of `n`, as an integer is spelled inside
      a template string: no sign and no leading zero. */
  function NatToString(n: nat): (s: string)
    ensures IsDecimal(s)
    ensures n > 0 ==> s[0] != '0'
    ensures n < 10 <==> |s| == 1
    decreases n
  {
    if n < 10 then [Digit(n)] else NatToString(n / 10) + [Digit(n % 10)]
  }

  /** The number a string of decimal digits denotes. */
  function DigitsValue(s: string): nat
    requires IsDecimal(s) || s == []
  {
    if s == [] then 0
    else DigitsValue(s[..|s| - 1]) * 10 + ((s[|s| - 1] as int) - ('0' as int))
  }

  /** Reading the spelling of `n` gives `n` back. */
  lemma {:induction false} NatToStringRoundTrip(n: nat)
    ensures DigitsValue(NatToString(n)) == n
    decreases n
  {
    var s := NatToString(n);
    if n < 10 {
      assert s[..0] == [];
    } else {
      NatToStringRoundTrip(n / 10);
      var p := NatToString(n / 10);
      assert s[..|s| - 1] == p;
      assert s[|s| - 1] == Digit(n % 10);
    }
  }

  /** The label of period `i` for `m` payments per year: "Mes" for monthly,
      "Trim" for quarterly, "Sem" for semi-annual, and "Año" for any other
      periodicity. The label starts with that word, and what follows it
      reads back as the period number. */
  function GetPeriodoLabel(i: nat, m: int): (r: string)
    ensures |LabelWord(m)| <= |r| && r[..|LabelWord(m)|] == LabelWord(m)
    ensures IsDecimal(r[|LabelWord(m)|..]) && DigitsValue(r[|LabelWord(m)|..]) == i
  {
    NatToStringRoundTrip(i);
    assert (LabelWord(m) + NatToString(i))[|LabelWord(m)|..] == NatToString(i);
    if m == 12 then "Mes " + NatToString(i)
    else if m == 4 then "Trim " + NatToString(i)
    else if m == 2 then "Sem " + NatToString(i)
    else "Año " + NatToString(i)
  }

  /** The word in front of the period number. */
  function LabelWord(m: int): string
  {
    if m == 12 then "Mes " else if m == 4 then "Trim " else if m == 2 then "Sem " else "Año "
  }

  /** Each word names one periodicity: monthly, quarterly, semi-annual, or
      anything else. */
  lemma LabelWordNamesPeriodicity(m: int)
    ensures LabelWord(m) == "Mes " <==> m == 12
    ensures LabelWord(m) == "Trim " <==> m == 4
    ensures LabelWord(m) == "Sem " <==> m == 2
    ensures LabelWord(m) == "Año " <==> m != 12 && m != 4 && m != 2
  {
  }

  /** A label names exactly one period: the digits after the word read back
      as the period number, so distinct periods get distinct labels. */
  lemma LabelNamesPeriod(i: nat, m: int)
    ensures GetPeriodoLabel(i, m) == LabelWord(m) + NatToString(i)
    ensures |LabelWord(m)| <= |GetPeriodoLabel(i, m)|
    ensures GetPeriodoLabel(i, m)[..|LabelWord(m)|] == LabelWord(m)
    ensures DigitsValue(GetPeriodoLabel(i, m)[|LabelWord(m)|..]) == i
  {
    var w, lbl := LabelWord(m), GetPeriodoLabel(i, m);
    assert lbl == w + NatToString(i);
    assert lbl[|w|..] == NatToString(i);
    NatToStringRoundTrip(i);
  }

  /** The label determines the period and the periodicity's word: labels
      of distinct periods differ, and so do labels of the same period under
      periodicities with different words. */
  lemma LabelInjective(i: nat, j: nat, m: int, n: int)
    requires GetPeriodoLabel(i, m) == GetPeriodoLabel(j, n)
    ensures i == j && LabelWord(m) == LabelWord(n)
  {
    var w, v := LabelWord(m), LabelWord(n);
    LabelNamesPeriod(i, m);
    LabelNamesPeriod(j, n);
    var lbl := GetPeriodoLabel(i, m);
    assert lbl == w + NatToString(i) && lbl == v + NatToString(j);
    WordsAgree(w, v, NatToString(i), NatToString(j));
    NatToStringRoundTrip(i);
    NatToStringRoundTrip(j);
  }

  /** Two decimal tails behind periodicity words: equal concatenations have
      equal words and equal tails. */
  lemma WordsAgree(w: string, v: string, x: string, y: string)
    requires w in {"Mes ", "Trim ", "Sem ", "Año "} && v in {"Mes ", "Trim ", "Sem ", "Año "}
    requires IsDecimal(x) && IsDecimal(y) && w + x == v + y
    ensures w == v && x == y
  {
    WordShape(w, x);
    WordShape(v, y);
    assert |w| == |v|;
    assert w == (w + x)[..|w|] == (v + y)[..|v|] == v;
    assert x == (w + x)[|w|..] == (v + y)[|v|..] == y;
  }

  /** Behind a periodicity word the first space is the word's last
      character: the words hold no other space and digits are not spaces. */
  lemma WordShape(w: string, x: string)
    requires w in {"Mes ", "Trim ", "Sem ", "Año "} && IsDecimal(x)
    ensures (w + x)[|w| - 1] == ' '
    ensures forall k :: 0 <= k < |w| - 1 ==> (w + x)[k] != ' '
    ensures forall k :: |w| <= k < |w + x| ==> (w + x)[k] != ' '
  {
  }
}
