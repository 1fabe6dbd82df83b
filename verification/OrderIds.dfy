/** Exchange ids as text, and the number that recovery reads back out of them. */
module OrderIds {
  /** The decimal text of a number. */
  function Digits(n: nat): (s: string)
    ensures |s| > 0 && forall i :: 0 <= i < |s| ==> IsDigit(s[i])
  {
    if n < 10 then [DigitChar(n)] else Digits(n / 10) + [DigitChar(n % 10)]
  }

  predicate IsDigit(c: char) {
    '0' <= c <= '9'
  }

  function DigitChar(d: nat): char
    requires d < 10
  {
    ('0' as int + d) as char
  }

  /** The number that a text of digits denotes. */
  function Value(s: string): nat
    requires forall i :: 0 <= i < |s| ==> IsDigit(s[i])
  {
    if s == [] then 0
    else
      assert IsDigit(s[|s| - 1]);
      Value(s[..|s| - 1]) * 10 + (s[|s| - 1] as int - '0' as int)
  }

  lemma {:induction false} DigitsValue(n: nat)
    ensures Value(Digits(n)) == n
  {
    if n >= 10 {
      DigitsValue(n / 10);
      var s := Digits(n);
      assert s[..|s| - 1] == Digits(n / 10);
    }
  }

  function Text(n: nat): string {
    "EXCH-" + Digits(n)
  }

  /** SQL's CAST to INTEGER: the longest leading run of digits. */
  function Leading(s: string): (k: nat)
    ensures k <= |s| && forall i :: 0 <= i < k ==> IsDigit(s[i])
  {
    if s == [] || !IsDigit(s[0]) then 0 else 1 + Leading(s[1..])
  }

  function CastInt(s: string): nat {
    Value(s[..Leading(s)])
  }

  /** SUBSTR(id, 6) counts from one: it drops five characters. */
  function SeqOf(id: string): nat {
    if |id| < 5 then 0 else CastInt(id[5..])
  }

  lemma {:induction false} LeadingAll(s: string)
    requires forall i :: 0 <= i < |s| ==> IsDigit(s[i])
    ensures Leading(s) == |s|
  {
    if s != [] {
      LeadingAll(s[1..]);
    }
  }

  /** Reading an id back gives the number it was made from. */
  lemma {:induction false} SeqOfText(n: nat)
    ensures SeqOf(Text(n)) == n
  {
    assert Text(n)[5..] == Digits(n);
    LeadingAll(Digits(n));
    assert Digits(n)[..|Digits(n)|] == Digits(n);
    DigitsValue(n);
  }

  /** Of a text without number nothing is read. */
  lemma {:induction false} SeqOfOther(id: string)
    requires |id| <= 5 || !IsDigit(id[5])
    ensures SeqOf(id) == 0
  {
    if |id| >= 5 {
      assert Leading(id[5..]) == 0;
      assert id[5..][..0] == [];
    }
  }

  /** A number without leading zeros is written as it reads. */
  lemma {:induction false} ValueDigits(s: string)
    requires s != [] && (forall i :: 0 <= i < |s| ==> IsDigit(s[i])) && (s[0] == '0' ==> |s| == 1)
    ensures Digits(Value(s)) == s && (s[0] != '0' ==> Value(s) > 0)
  {
    var front := s[..|s| - 1];
    assert s == front + [s[|s| - 1]];
    if front == [] {
      assert Value(front) == 0;
    } else {
      ValueDigits(front);
    }
  }

  /** So ids and their numbers determine each other: the id of a number is the one text of this
      form that denotes it. */
  lemma {:induction false} TextIff(s: string, n: nat)
    ensures s == Text(n)
            <==> && |s| >= 6 && s[0] == 'E' && s[1] == 'X' && s[2] == 'C' && s[3] == 'H' && s[4] == '-'
                 && (forall i :: 5 <= i < |s| ==> IsDigit(s[i]))
                 && (s[5] == '0' ==> |s| == 6)
                 && SeqOf(s) == n
  {
    SeqOfText(n);
    DigitsPlain(n);
    if |s| >= 6 && (forall i :: 5 <= i < |s| ==> IsDigit(s[i])) && (s[5] == '0' ==> |s| == 6) {
      assert SeqOf(s) == Value(s[5..]) && Digits(Value(s[5..])) == s[5..] by {
        LeadingAll(s[5..]);
        assert s[5..][..|s[5..]|] == s[5..];
        ValueDigits(s[5..]);
      }
      assert s == [s[0], s[1], s[2], s[3], s[4]] + s[5..];
    }
  }

  lemma {:induction false} DigitsPlain(n: nat)
    ensures Digits(n)[0] == '0' ==> n == 0 && |Digits(n)| == 1
  {
    if n >= 10 {
      DigitsPlain(n / 10);
    }
  }

  function Pow10(k: nat): nat {
    if k == 0 then 1 else 10 * Pow10(k - 1)
  }

  lemma {:induction false} DigitsFitIff(n: nat, k: nat)
    requires k >= 1
    ensures |Digits(n)| <= k <==> n < Pow10(k)
    decreases k
  {
    if k == 1 {
      assert Pow10(1) == 10 * Pow10(0);
    } else {
      DigitsFitIff(n / 10, k - 1);
      PowerGrows(k);
    }
  }

  lemma {:induction false} PowerGrows(k: nat)
    requires k >= 1
    ensures Pow10(k) >= 10
  {
    if k > 1 {
      PowerGrows(k - 1);
    }
  }
}
