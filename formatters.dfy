/**
 * Brazilian identifier formatters and sanitisers (src/utils/formatters.ts).
 *
 * Every function strips the non-digits of its input (the pattern /\D/g),
 * counts what is left and, for the one count it recognises, lays the digits
 * out in a fixed mask.  Nothing here checks CNPJ or CPF check digits: the
 * source only counts digits.
 */
module Formatters {

  predicate IsDigit(c: char) {
    '0' <= c <= '9'
  }

  predicate AllDigits(s: string) {
    forall i :: 0 <= i < |s| ==> IsDigit(s[i])
  }

  /** What `s.replace(/\D/g, "")` leaves: the ASCII digits of `s`, in order. */
  function Digits(s: string): (r: string)
    ensures |r| <= |s|
    ensures AllDigits(r)
    ensures AllDigits(s) ==> r == s
  {
    if s == [] then []
    else (if IsDigit(s[0]) then [s[0]] else []) + Digits(s[1..])
  }

  lemma {:induction false} DigitsAppend(a: string, b: string)
    ensures Digits(a + b) == Digits(a) + Digits(b)
  {
    if a == [] {
      assert a + b == b;
    } else {
      assert (a + b)[1..] == a[1..] + b;
      DigitsAppend(a[1..], b);
    }
  }

  /** A character contributes itself if it is a digit and nothing otherwise;
      with DigitsAppend this determines Digits completely. */
  lemma DigitsOfChar(c: char)
    ensures Digits([c]) == if IsDigit(c) then [c] else []
  {
    assert [c][1..] == [];
  }

  /** Digits of a string with no digits at all. */
  lemma {:induction false} DigitsOfNonDigits(s: string)
    requires forall i :: 0 <= i < |s| ==> !IsDigit(s[i])
    ensures Digits(s) == []
  {
    if s != [] {
      DigitsOfNonDigits(s[1..]);
    }
  }

  /**
   * A mask such as "(DD) DDDDD-DDDD": each 'D' is a slot for one digit and
   * every other character must appear literally.
   */
  predicate FitsMask(s: string, mask: string) {
    && |s| == |mask|
    && forall i :: 0 <= i < |s| ==>
         if mask[i] == 'D' then IsDigit(s[i]) else s[i] == mask[i]
  }

  /** Number of digit slots in a mask. */
  function Slots(mask: string): nat {
    if mask == [] then 0 else (if mask[0] == 'D' then 1 else 0) + Slots(mask[1..])
  }

  /**
   * A mask whose literal characters are not digits fixes a string once its
   * digits are known: two strings that fit it and carry the same digits are
   * equal.  So "fits the mask and has the input's digits" pins a formatter's
   * result down completely.
   */
  lemma {:induction false} MaskDetermines(r1: string, r2: string, mask: string)
    requires forall i :: 0 <= i < |mask| ==> !IsDigit(mask[i])
    requires FitsMask(r1, mask) && FitsMask(r2, mask)
    requires Digits(r1) == Digits(r2)
    ensures r1 == r2
  {
    if mask != [] {
      assert FitsMask(r1[1..], mask[1..]) by {
        forall i | 0 <= i < |r1| - 1
          ensures if mask[1..][i] == 'D' then IsDigit(r1[1..][i]) else r1[1..][i] == mask[1..][i]
        {
          assert mask[1..][i] == mask[i + 1] && r1[1..][i] == r1[i + 1];
        }
      }
      assert FitsMask(r2[1..], mask[1..]) by {
        forall i | 0 <= i < |r2| - 1
          ensures if mask[1..][i] == 'D' then IsDigit(r2[1..][i]) else r2[1..][i] == mask[1..][i]
        {
          assert mask[1..][i] == mask[i + 1] && r2[1..][i] == r2[i + 1];
        }
      }
      assert r1[0] == r2[0] && Digits(r1[1..]) == Digits(r2[1..]) by {
        if mask[0] == 'D' {
          assert IsDigit(r1[0]) && IsDigit(r2[0]);
          assert Digits(r1) == [r1[0]] + Digits(r1[1..]);
          assert Digits(r2) == [r2[0]] + Digits(r2[1..]);
          assert Digits(r1)[0] == r1[0] && Digits(r2)[0] == r2[0];
          assert Digits(r1)[1..] == Digits(r1[1..]);
          assert Digits(r2)[1..] == Digits(r2[1..]);
        } else {
          assert r1[0] == mask[0] == r2[0];
          assert !IsDigit(r1[0]);
          assert [] + Digits(r1[1..]) == Digits(r1[1..]);
          assert [] + Digits(r2[1..]) == Digits(r2[1..]);
          assert Digits(r1) == Digits(r1[1..]);
          assert Digits(r2) == Digits(r2[1..]);
        }
      }
      MaskDetermines(r1[1..], r2[1..], mask[1..]);
      assert r1 == [r1[0]] + r1[1..];
      assert r2 == [r2[0]] + r2[1..];
    }
  }

  // The masks, written group by group: "(DD) DDDDD-DDDD", "(DD) DDDD-DDDD",
  // "DD.DDD.DDD/DDDD-DD", "DDD.DDD.DDD-DD" and "DDDDD-DDD".
  const MobileMask: string := "(" + "DD" + ") " + "DDDDD" + "-" + "DDDD"
  const LandlineMask: string := "(" + "DD" + ") " + "DDDD" + "-" + "DDDD"
  const CnpjMask: string := "DD" + "." + "DDD" + "." + "DDD" + "/" + "DDDD" + "-" + "DD"
  const CpfMask: string := "DDD" + "." + "DDD" + "." + "DDD" + "-" + "DD"
  const CepMask: string := "DDDDD" + "-" + "DDD"

  /** Literal characters of a mask are never digits. */
  predicate LiteralsNonDigit(mask: string) {
    forall i :: 0 <= i < |mask| ==> !IsDigit(mask[i])
  }

  lemma LiteralsNonDigitAppend(a: string, b: string)
    requires LiteralsNonDigit(a) && LiteralsNonDigit(b)
    ensures LiteralsNonDigit(a + b)
  {
    forall i | 0 <= i < |a + b| ensures !IsDigit((a + b)[i]) {
      if i >= |a| {
        assert (a + b)[i] == b[i - |a|];
      }
    }
  }

  /** None of the five masks has a digit among its literal characters. */
  lemma MasksWellFormed()
    ensures LiteralsNonDigit(MobileMask) && LiteralsNonDigit(LandlineMask)
    ensures LiteralsNonDigit(CnpjMask) && LiteralsNonDigit(CpfMask) && LiteralsNonDigit(CepMask)
  {
    var d2, d3, d4, d5 := "DD", "DDD", "DDDD", "DDDDD";
    assert LiteralsNonDigit(d2) && LiteralsNonDigit(d3) && LiteralsNonDigit(d4) && LiteralsNonDigit(d5);
    assert LiteralsNonDigit("(") && LiteralsNonDigit(") ") && LiteralsNonDigit("-");
    assert LiteralsNonDigit(".") && LiteralsNonDigit("/");
    LiteralsNonDigitAppend("(", d2);
    LiteralsNonDigitAppend("(" + d2, ") ");
    LiteralsNonDigitAppend("(" + d2 + ") ", d5);
    LiteralsNonDigitAppend("(" + d2 + ") ", d4);
    LiteralsNonDigitAppend("(" + d2 + ") " + d5, "-");
    LiteralsNonDigitAppend("(" + d2 + ") " + d4, "-");
    LiteralsNonDigitAppend("(" + d2 + ") " + d5 + "-", d4);
    LiteralsNonDigitAppend("(" + d2 + ") " + d4 + "-", d4);
    LiteralsNonDigitAppend(d2, ".");
    LiteralsNonDigitAppend(d2 + ".", d3);
    LiteralsNonDigitAppend(d2 + "." + d3, ".");
    LiteralsNonDigitAppend(d2 + "." + d3 + ".", d3);
    LiteralsNonDigitAppend(d2 + "." + d3 + "." + d3, "/");
    LiteralsNonDigitAppend(d2 + "." + d3 + "." + d3 + "/", d4);
    LiteralsNonDigitAppend(d2 + "." + d3 + "." + d3 + "/" + d4, "-");
    LiteralsNonDigitAppend(d2 + "." + d3 + "." + d3 + "/" + d4 + "-", d2);
    LiteralsNonDigitAppend(d3, ".");
    LiteralsNonDigitAppend(d3 + ".", d3);
    LiteralsNonDigitAppend(d3 + "." + d3, ".");
    LiteralsNonDigitAppend(d3 + "." + d3 + ".", d3);
    LiteralsNonDigitAppend(d3 + "." + d3 + "." + d3, "-");
    LiteralsNonDigitAppend(d3 + "." + d3 + "." + d3 + "-", d2);
    LiteralsNonDigitAppend(d5, "-");
    LiteralsNonDigitAppend(d5 + "-", d3);
  }

  predicate AllSlots(mask: string) {
    forall i :: 0 <= i < |mask| ==> mask[i] == 'D'
  }

  lemma FitsAppend(s1: string, m1: string, s2: string, m2: string)
    requires FitsMask(s1, m1) && FitsMask(s2, m2)
    ensures FitsMask(s1 + s2, m1 + m2)
  {
    var s, m := s1 + s2, m1 + m2;
    forall i | 0 <= i < |s|
      ensures if m[i] == 'D' then IsDigit(s[i]) else s[i] == m[i]
    {
      if i >= |s1| {
        assert s[i] == s2[i - |s1|] && m[i] == m2[i - |s1|];
      }
    }
  }

  /**
   * One step of laying out a formatted value: after a prefix that fits its
   * mask comes a literal separator and then a group of digits.
   */
  lemma LayoutStep(prefix: string, pm: string, lit: string, g: string, gm: string)
    requires FitsMask(prefix, pm)
    requires LiteralsNonDigit(lit) && forall i :: 0 <= i < |lit| ==> lit[i] != 'D'
    requires AllDigits(g) && |g| == |gm| && AllSlots(gm)
    ensures FitsMask(prefix + lit + g, pm + lit + gm)
    ensures Digits(prefix + lit + g) == Digits(prefix) + g
  {
    assert FitsMask(lit, lit);
    assert FitsMask(g, gm);
    FitsAppend(prefix, pm, lit, lit);
    FitsAppend(prefix + lit, pm + lit, g, gm);
    DigitsAppend(prefix + lit, g);
    DigitsAppend(prefix, lit);
    DigitsOfNonDigits(lit);
    assert Digits(prefix) + [] == Digits(prefix);
  }

  /** The first group, possibly after a leading literal. */
  lemma LayoutFirst(lit: string, g: string, gm: string)
    requires LiteralsNonDigit(lit) && forall i :: 0 <= i < |lit| ==> lit[i] != 'D'
    requires AllDigits(g) && |g| == |gm| && AllSlots(gm)
    ensures FitsMask(lit + g, lit + gm)
    ensures Digits(lit + g) == g
  {
    assert FitsMask(lit, lit);
    assert FitsMask(g, gm);
    FitsAppend(lit, lit, g, gm);
    DigitsAppend(lit, g);
    DigitsOfNonDigits(lit);
    assert [] + g == g;
  }

  // ---------------------------------------------------------------------
  // Phone

  /** formatPhone: "" stays "", 11 digits become a mobile number, 10 digits a
      landline number, and any other digit count leaves the input as it was. */
  function FormatPhone(phone: string): (r: string)
    ensures phone == "" ==> r == ""
    ensures phone != "" && |Digits(phone)| == 11 ==> FitsMask(r, MobileMask) && Digits(r) == Digits(phone)
    ensures phone != "" && |Digits(phone)| == 10 ==> FitsMask(r, LandlineMask) && Digits(r) == Digits(phone)
    ensures |Digits(phone)| != 11 && |Digits(phone)| != 10 ==> r == phone
  {
    if phone == "" then ""
    else
      var d := Digits(phone);
      if |d| == 11 then
        MobileLayout(d);
        "(" + d[..2] + ") " + d[2..7] + "-" + d[7..]
      else if |d| == 10 then
        LandlineLayout(d);
        "(" + d[..2] + ") " + d[2..6] + "-" + d[6..]
      else phone
  }

  lemma MobileLayout(d: string)
    requires |d| == 11 && AllDigits(d)
    ensures var r := "(" + d[..2] + ") " + d[2..7] + "-" + d[7..];
      FitsMask(r, MobileMask) && Digits(r) == d
  {
    LayoutFirst("(", d[..2], "DD");
    LayoutStep("(" + d[..2], "(" + "DD", ") ", d[2..7], "DDDDD");
    LayoutStep("(" + d[..2] + ") " + d[2..7], "(" + "DD" + ") " + "DDDDD", "-", d[7..], "DDDD");
    assert d[..2] + d[2..7] + d[7..] == d;
  }

  lemma LandlineLayout(d: string)
    requires |d| == 10 && AllDigits(d)
    ensures var r := "(" + d[..2] + ") " + d[2..6] + "-" + d[6..];
      FitsMask(r, LandlineMask) && Digits(r) == d
  {
    LayoutFirst("(", d[..2], "DD");
    LayoutStep("(" + d[..2], "(" + "DD", ") ", d[2..6], "DDDD");
    LayoutStep("(" + d[..2] + ") " + d[2..6], "(" + "DD" + ") " + "DDDD", "-", d[6..], "DDDD");
    assert d[..2] + d[2..6] + d[6..] == d;
  }

  /** formatPhone never changes the digits and is idempotent. */
  lemma FormatPhoneIdempotent(phone: string)
    ensures Digits(FormatPhone(phone)) == Digits(phone)
    ensures FormatPhone(FormatPhone(phone)) == FormatPhone(phone)
  {
    var r := FormatPhone(phone);
    var n := |Digits(phone)|;
    MasksWellFormed();
    if phone != "" && n == 11 {
      MaskDetermines(FormatPhone(r), r, MobileMask);
    } else if phone != "" && n == 10 {
      MaskDetermines(FormatPhone(r), r, LandlineMask);
    }
  }

  // ---------------------------------------------------------------------
  // CNPJ

  /** formatCNPJ: 14 digits become "DD.DDD.DDD/DDDD-DD"; otherwise the input
      is returned as it was ("" included). */
  function FormatCNPJ(cnpj: string): (r: string)
    ensures cnpj == "" ==> r == ""
    ensures cnpj != "" && |Digits(cnpj)| == 14 ==> FitsMask(r, CnpjMask) && Digits(r) == Digits(cnpj)
    ensures |Digits(cnpj)| != 14 ==> r == cnpj
  {
    if cnpj == "" then ""
    else
      var d := Digits(cnpj);
      if |d| == 14 then
        CnpjLayout(d);
        d[..2] + "." + d[2..5] + "." + d[5..8] + "/" + d[8..12] + "-" + d[12..]
      else cnpj
  }

  /** The first two groups of a CNPJ: "DD.DDD". */
  lemma CnpjPrefix(d: string)
    requires |d| == 14 && AllDigits(d)
    ensures FitsMask(d[..2] + "." + d[2..5], "DD" + "." + "DDD")
    ensures Digits(d[..2] + "." + d[2..5]) == d[..5]
  {
    var g1, g2 := d[..2], d[2..5];
    LayoutFirst("", g1, "DD");
    assert "" + g1 == g1 && "" + "DD" == "DD";
    LayoutStep(g1, "DD", ".", g2, "DDD");
    assert g1 + g2 == d[..5];
  }

  /** The first three groups of a CNPJ: "DD.DDD.DDD". */
  lemma CnpjHead(d: string)
    requires |d| == 14 && AllDigits(d)
    ensures FitsMask(d[..2] + "." + d[2..5] + "." + d[5..8], "DD" + "." + "DDD" + "." + "DDD")
    ensures Digits(d[..2] + "." + d[2..5] + "." + d[5..8]) == d[..8]
  {
    var prefix, g3 := d[..2] + "." + d[2..5], d[5..8];
    CnpjPrefix(d);
    LayoutStep(prefix, "DD" + "." + "DDD", ".", g3, "DDD");
    assert d[..5] + g3 == d[..8];
  }

  lemma CnpjLayout(d: string)
    requires |d| == 14 && AllDigits(d)
    ensures var r := d[..2] + "." + d[2..5] + "." + d[5..8] + "/" + d[8..12] + "-" + d[12..];
      FitsMask(r, CnpjMask) && Digits(r) == d
  {
    var head := d[..2] + "." + d[2..5] + "." + d[5..8];
    var hm := "DD" + "." + "DDD" + "." + "DDD";
    var g4, g5 := d[8..12], d[12..];
    CnpjHead(d);
    LayoutStep(head, hm, "/", g4, "DDDD");
    LayoutStep(head + "/" + g4, hm + "/" + "DDDD", "-", g5, "DD");
    assert d[..8] + g4 + g5 == d;
  }

  lemma FormatCNPJIdempotent(cnpj: string)
    ensures Digits(FormatCNPJ(cnpj)) == Digits(cnpj)
    ensures FormatCNPJ(FormatCNPJ(cnpj)) == FormatCNPJ(cnpj)
  {
    var r := FormatCNPJ(cnpj);
    MasksWellFormed();
    if cnpj != "" && |Digits(cnpj)| == 14 {
      MaskDetermines(FormatCNPJ(r), r, CnpjMask);
    }
  }

  // ---------------------------------------------------------------------
  // CPF

  /** formatCPF: 11 digits become "DDD.DDD.DDD-DD"; otherwise the input is
      returned as it was. */
  function FormatCPF(cpf: string): (r: string)
    ensures cpf == "" ==> r == ""
    ensures cpf != "" && |Digits(cpf)| == 11 ==> FitsMask(r, CpfMask) && Digits(r) == Digits(cpf)
    ensures |Digits(cpf)| != 11 ==> r == cpf
  {
    if cpf == "" then ""
    else
      var d := Digits(cpf);
      if |d| == 11 then
        CpfLayout(d);
        d[..3] + "." + d[3..6] + "." + d[6..9] + "-" + d[9..]
      else cpf
  }

  /** The first two groups of a CPF: "DDD.DDD". */
  lemma CpfHead(d: string)
    requires |d| == 11 && AllDigits(d)
    ensures FitsMask(d[..3] + "." + d[3..6], "DDD" + "." + "DDD")
    ensures Digits(d[..3] + "." + d[3..6]) == d[..6]
  {
    var g1, g2 := d[..3], d[3..6];
    LayoutFirst("", g1, "DDD");
    assert "" + g1 == g1 && "" + "DDD" == "DDD";
    LayoutStep(g1, "DDD", ".", g2, "DDD");
    assert g1 + g2 == d[..6];
  }

  lemma CpfLayout(d: string)
    requires |d| == 11 && AllDigits(d)
    ensures var r := d[..3] + "." + d[3..6] + "." + d[6..9] + "-" + d[9..];
      FitsMask(r, CpfMask) && Digits(r) == d
  {
    var head := d[..3] + "." + d[3..6];
    var hm := "DDD" + "." + "DDD";
    var g3, g4 := d[6..9], d[9..];
    CpfHead(d);
    LayoutStep(head, hm, ".", g3, "DDD");
    LayoutStep(head + "." + g3, hm + "." + "DDD", "-", g4, "DD");
    assert d[..6] + g3 + g4 == d;
  }

  lemma FormatCPFIdempotent(cpf: string)
    ensures Digits(FormatCPF(cpf)) == Digits(cpf)
    ensures FormatCPF(FormatCPF(cpf)) == FormatCPF(cpf)
  {
    var r := FormatCPF(cpf);
    MasksWellFormed();
    if cpf != "" && |Digits(cpf)| == 11 {
      MaskDetermines(FormatCPF(r), r, CpfMask);
    }
  }

  // ---------------------------------------------------------------------
  // CEP

  /** formatCEP: 8 digits become "DDDDD-DDD"; otherwise the input is returned
      as it was. */
  function FormatCEP(cep: string): (r: string)
    ensures cep == "" ==> r == ""
    ensures cep != "" && |Digits(cep)| == 8 ==> FitsMask(r, CepMask) && Digits(r) == Digits(cep)
    ensures |Digits(cep)| != 8 ==> r == cep
  {
    if cep == "" then ""
    else
      var d := Digits(cep);
      if |d| == 8 then
        CepLayout(d);
        d[..5] + "-" + d[5..]
      else cep
  }

  lemma CepLayout(d: string)
    requires |d| == 8 && AllDigits(d)
    ensures var r := d[..5] + "-" + d[5..];
      FitsMask(r, CepMask) && Digits(r) == d
  {
    LayoutFirst("", d[..5], "DDDDD");
    assert "" + d[..5] == d[..5] && "" + "DDDDD" == "DDDDD";
    LayoutStep(d[..5], "DDDDD", "-", d[5..], "DDD");
    assert d[..5] + d[5..] == d;
  }

  lemma FormatCEPIdempotent(cep: string)
    ensures Digits(FormatCEP(cep)) == Digits(cep)
    ensures FormatCEP(FormatCEP(cep)) == FormatCEP(cep)
  {
    var r := FormatCEP(cep);
    MasksWellFormed();
    if cep != "" && |Digits(cep)| == 8 {
      MaskDetermines(FormatCEP(r), r, CepMask);
    }
  }

  /** isValidCEP (formatters.ts:157-161): exactly eight digits, "" excluded. */
  function IsValidCEP(cep: string): (r: bool)
    ensures r <==> |Digits(cep)| == 8
    ensures cep == "" ==> !r
  {
    if cep == "" then false
    else |Digits(cep)| == 8
  }

  /** Digits in a string that fits a mask: one per slot. */
  lemma {:induction false} DigitsOfFitting(s: string, mask: string)
    requires LiteralsNonDigit(mask) && FitsMask(s, mask)
    ensures |Digits(s)| == Slots(mask)
  {
    if mask != [] {
      assert FitsMask(s[1..], mask[1..]) by {
        forall i | 0 <= i < |s| - 1
          ensures if mask[1..][i] == 'D' then IsDigit(s[1..][i]) else s[1..][i] == mask[1..][i]
        {
          assert mask[1..][i] == mask[i + 1] && s[1..][i] == s[i + 1];
        }
      }
      DigitsOfFitting(s[1..], mask[1..]);
    }
  }

  lemma {:induction false} SlotsAppend(a: string, b: string)
    ensures Slots(a + b) == Slots(a) + Slots(b)
  {
    if a != [] {
      assert (a + b)[0] == a[0];
      assert (a + b)[1..] == a[1..] + b;
      SlotsAppend(a[1..], b);
    } else {
      assert a + b == b;
    }
  }

  /** A string laid out as a CEP carries exactly eight digits. */
  lemma CepFitHasEightDigits(s: string)
    requires FitsMask(s, CepMask)
    ensures |Digits(s)| == 8
  {
    MasksWellFormed();
    DigitsOfFitting(s, CepMask);
    SlotsAppend("DDDDD" + "-", "DDD");
    SlotsAppend("DDDDD", "-");
  }

  /**
   * formatCEP produces a well-formed CEP exactly for the inputs isValidCEP
   * accepts; every other input comes back unchanged.
   */
  lemma ValidCEPIffFormatted(cep: string)
    ensures IsValidCEP(cep) <==> FitsMask(FormatCEP(cep), CepMask)
    ensures !IsValidCEP(cep) ==> FormatCEP(cep) == cep
  {
    if FitsMask(FormatCEP(cep), CepMask) {
      CepFitHasEightDigits(FormatCEP(cep));
      FormatCEPIdempotent(cep);
    }
  }

  // ---------------------------------------------------------------------
  // Sanitisers for the API (formatters.ts:117-150): all four keep the digits.

  function SanitizePhoneForAPI(value: string): (r: string)
    ensures r == Digits(value)
  {
    if value == "" then "" else Digits(value)
  }

  function SanitizeCNPJForAPI(value: string): (r: string)
    ensures r == Digits(value)
  {
    if value == "" then "" else Digits(value)
  }

  function SanitizeCPFForAPI(value: string): (r: string)
    ensures r == Digits(value)
  {
    if value == "" then "" else Digits(value)
  }

  function SanitizeCEPForAPI(value: string): (r: string)
    ensures r == Digits(value)
  {
    if value == "" then "" else Digits(value)
  }

  /** Sanitising is idempotent, and sanitising a formatted value gives what
      sanitising the raw value gives. */
  lemma SanitizeAfterFormat(s: string)
    ensures SanitizePhoneForAPI(SanitizePhoneForAPI(s)) == SanitizePhoneForAPI(s)
    ensures SanitizeCNPJForAPI(SanitizeCNPJForAPI(s)) == SanitizeCNPJForAPI(s)
    ensures SanitizeCPFForAPI(SanitizeCPFForAPI(s)) == SanitizeCPFForAPI(s)
    ensures SanitizeCEPForAPI(SanitizeCEPForAPI(s)) == SanitizeCEPForAPI(s)
    ensures SanitizePhoneForAPI(FormatPhone(s)) == SanitizePhoneForAPI(s)
    ensures SanitizeCNPJForAPI(FormatCNPJ(s)) == SanitizeCNPJForAPI(s)
    ensures SanitizeCPFForAPI(FormatCPF(s)) == SanitizeCPFForAPI(s)
    ensures SanitizeCEPForAPI(FormatCEP(s)) == SanitizeCEPForAPI(s)
  {
    FormatPhoneIdempotent(s);
    FormatCNPJIdempotent(s);
    FormatCPFIdempotent(s);
    FormatCEPIdempotent(s);
  }

  /** Round trip through the API form: a bare 14-digit CNPJ formats and
      sanitises back to itself; likewise CPF, phone and CEP. */
  lemma FormatSanitizeRoundTrip(d: string)
    requires AllDigits(d)
    ensures |d| == 14 ==> SanitizeCNPJForAPI(FormatCNPJ(d)) == d
    ensures |d| == 11 ==> SanitizeCPFForAPI(FormatCPF(d)) == d && SanitizePhoneForAPI(FormatPhone(d)) == d
    ensures |d| == 8 ==> SanitizeCEPForAPI(FormatCEP(d)) == d
  {
  }

  /** Punctuation is ignored: two non-empty inputs with the same digits
      ("11.222.333/0001-81" and "11222333000181", say) format alike whenever
      the digit count is one the formatter recognises. */
  lemma NonDigitsIgnored(a: string, b: string)
    requires a != "" && b != "" && Digits(a) == Digits(b)
    ensures |Digits(a)| in {10, 11} ==> FormatPhone(a) == FormatPhone(b)
    ensures |Digits(a)| == 14 ==> FormatCNPJ(a) == FormatCNPJ(b)
    ensures |Digits(a)| == 11 ==> FormatCPF(a) == FormatCPF(b)
    ensures |Digits(a)| == 8 ==> FormatCEP(a) == FormatCEP(b)
  {
  }

  /** The other way round: a value as typed, punctuation and all, formats
      the same once sanitised, whenever its digit count is one the
      formatter recognises. */
  lemma SanitizeThenFormat(s: string)
    ensures |Digits(s)| in {10, 11} ==> FormatPhone(SanitizePhoneForAPI(s)) == FormatPhone(s)
    ensures |Digits(s)| == 14 ==> FormatCNPJ(SanitizeCNPJForAPI(s)) == FormatCNPJ(s)
    ensures |Digits(s)| == 11 ==> FormatCPF(SanitizeCPFForAPI(s)) == FormatCPF(s)
    ensures |Digits(s)| == 8 ==> FormatCEP(SanitizeCEPForAPI(s)) == FormatCEP(s)
  {
    if Digits(s) != [] {
      var d := Digits(s);
      assert Digits(d) == d;
      assert s != [];
      NonDigitsIgnored(d, s);
    }
  }
}
