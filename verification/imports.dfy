/** Importing invoices from a file: reading phone numbers, validating rows and marking duplicate ones. */
module Imports {
  import opened Options
  import D = Decimal
  import T = SmsText
  import C = Calendar
  import Csv

  // -------------------------------------------------------------------- phones

  predicate Separator(c: char) {
    Csv.IsSpace(c) || c in "-()"
  }

  function Strip(s: string): (r: string)
    ensures forall i :: 0 <= i < |r| ==> !Separator(r[i])
  {
    if s == "" then ""
    else
      var n := |s| - 1;
      Strip(s[..n]) + if Separator(s[n]) then "" else [s[n]]
  }

  /** The eight digits of a stripped number, after an optional 976 or +976. */
  function LocalPart(s: string): Option<string> {
    if |s| == 8 && D.AllDigits(s) then Some(s)
    else if |s| == 11 && s[..3] == "976" && D.AllDigits(s[3..]) then Some(s[3..])
    else if |s| == 12 && s[..4] == "+976" && D.AllDigits(s[4..]) then Some(s[4..])
    else None
  }

  function NormalizeMnPhone(input: string): Option<string> {
    match LocalPart(Strip(input))
    case None => None
    case Some(local) => if '5' <= local[0] <= '9' then Some("+976" + local) else None
  }

  predicate Normal(phone: string) {
    |phone| == 12 && phone[..4] == "+976" && D.AllDigits(phone[4..]) && '5' <= phone[4] <= '9'
  }

  /** A normalised number is +976 and eight digits of a mobile number. */
  lemma NormalizedForm(input: string)
    ensures NormalizeMnPhone(input).Some? ==> Normal(NormalizeMnPhone(input).value)
  {
    var local := LocalPart(Strip(input));
    if local.Some? {
      assert ("+976" + local.value)[4..] == local.value;
      assert ("+976" + local.value)[..4] == "+976";
    }
  }

  lemma {:induction false} StripKeeps(s: string)
    requires forall i :: 0 <= i < |s| ==> !Separator(s[i])
    ensures Strip(s) == s
  {
    if s != "" { StripKeeps(s[..|s| - 1]); }
  }

  lemma DigitsAreNoSeparators(s: string)
    requires forall i :: 0 <= i < |s| ==> D.IsDigit(s[i]) || s[i] == '+'
    ensures forall i :: 0 <= i < |s| ==> !Separator(s[i])
  {
  }

  /** Stripping drops the separators one by one and keeps everything else in order. */
  lemma {:induction false} StripAppend(a: string, b: string)
    ensures Strip(a + b) == Strip(a) + Strip(b)
  {
    hide Separator;
    if b == "" {
      assert a + b == a;
    } else {
      var n := |b| - 1;
      assert (a + b)[..|a| + n] == a + b[..n];
      StripAppend(a, b[..n]);
    }
  }

  lemma StripOne(c: char)
    ensures Strip([c]) == if Csv.IsSpace(c) || c == '-' || c == '(' || c == ')' then "" else [c]
  {
    assert [c][..0] == "";
  }

  /**
    A number is accepted exactly if it is, apart from separators, the eight digits of a mobile number, alone or
    after 976 or +976; the result is always written in the last way.
  */
  lemma NormalizeExactly(input: string, phone: string)
    ensures NormalizeMnPhone(input) == Some(phone) <==>
      Normal(phone) && (Strip(input) == phone[4..] || Strip(input) == phone[1..] || Strip(input) == phone)
  {
    var s := Strip(input);
    if NormalizeMnPhone(input) == Some(phone) {
      NormalizedForm(input);
      assert phone[4..] == LocalPart(s).value;
      assert |s| == 11 ==> s == phone[1..];
    } else if Normal(phone) {
      assert phone[1..][..3] == "976" && phone[1..][3..] == phone[4..];
      assert phone == "+976" + phone[4..];
    }
  }

  /** Exactly the normal numbers are left unchanged, so normalising twice is normalising once. */
  lemma NormalExactly(phone: string)
    ensures NormalizeMnPhone(phone) == Some(phone) <==> Normal(phone)
  {
    if NormalizeMnPhone(phone) == Some(phone) { NormalizedForm(phone); }
    if Normal(phone) {
      assert phone == "+976" + phone[4..];
      forall i | 0 <= i < |phone| ensures D.IsDigit(phone[i]) || phone[i] == '+' {
        if i >= 4 { assert phone[i] == phone[4..][i - 4]; } else { assert phone[i] == "+976"[i]; }
      }
      DigitsAreNoSeparators(phone);
      StripKeeps(phone);
    }
  }

  lemma NormalizeIdempotent(input: string)
    requires NormalizeMnPhone(input).Some?
    ensures NormalizeMnPhone(NormalizeMnPhone(input).value) == NormalizeMnPhone(input)
  {
    NormalizedForm(input);
    NormalExactly(NormalizeMnPhone(input).value);
  }

  // ------------------------------------------------------------------- amounts

  const MAX_INVOICE_AMOUNT: int := 1_000_000_000

  /** The amount's text without thousands separators, white space and currency signs. */
  function Bare(s: string): string {
    if s == "" then ""
    else
      var n := |s| - 1;
      Bare(s[..n]) + if s[n] == ',' || s[n] == '₮' || Csv.IsSpace(s[n]) then "" else [s[n]]
  }

  function Pow2(n: nat): nat {
    if n == 0 then 1 else 2 * Pow2(n - 1)
  }

  /** The least digits' value that `Number` rounds to infinity (section 6.1.6.1 of ECMA-262). */
  function Infinity(): int {
    Pow2(1024) - Pow2(970)
  }

  /**
    The whole number in an amount cell, if there is one. Digits are read in full; `other` is what `Number`
    makes of any other text, such as an exponent, when that is whole.
  */
  function AmountOf(cell: string, other: Option<int>): Option<int> {
    var s := Bare(cell);
    if s == "" then None
    else if !D.AllDigits(s) then other
    else if D.Value(s) >= Infinity() then None
    else Some(D.Value(s))
  }

  lemma {:induction false} Pow2Grows(n: nat, m: nat)
    requires n <= m
    ensures 1 <= Pow2(n) <= Pow2(m)
    decreases m
  {
    if n < m {
      Pow2Grows(n, m - 1);
    } else if n > 0 {
      Pow2Grows(n - 1, m - 1);
    }
  }

  lemma Pow2Thirty()
    ensures Pow2(30) == 1_073_741_824
  {
    assert Pow2(10) == 1024;
    assert Pow2(20) == 1_048_576;
  }

  lemma InfinityIsLarge()
    ensures Infinity() > MAX_INVOICE_AMOUNT
  {
    Pow2Thirty();
    Pow2Grows(30, 1023);
    Pow2Grows(970, 1023);
    assert Pow2(1024) == 2 * Pow2(1023);
    hide Pow2;
  }

  lemma DigitIsNoSpace(c: char)
    requires D.IsDigit(c)
    ensures !Csv.IsSpace(c)
  {
  }

  lemma {:induction false} BareKeeps(s: string)
    requires D.AllDigits(s)
    ensures Bare(s) == s
  {
    hide Csv.IsSpace;
    if s != "" {
      DigitIsNoSpace(s[|s| - 1]);
      BareKeeps(s[..|s| - 1]);
    }
  }

  lemma {:induction false} BareAppend(a: string, b: string)
    ensures Bare(a + b) == Bare(a) + Bare(b)
  {
    hide Csv.IsSpace;
    if b == "" {
      assert a + b == a;
    } else {
      var n := |b| - 1;
      assert (a + b)[..|a| + n] == a + b[..n];
      BareAppend(a, b[..n]);
    }
  }

  lemma BareOne(c: char)
    ensures Bare([c]) == if Csv.IsSpace(c) || c == ',' || c == '₮' then "" else [c]
  {
    assert [c][..0] == "";
  }

  /**
    Every amount up to the limit that is written in digits is read back, wherever separators and currency signs
    stand between them, and with whatever else `Number` accepts.
  */
  lemma AmountRead(cell: string, n: nat, other: Option<int>)
    requires n <= 1_000_000_000 && (cell == D.Text(n) || Bare(cell) == D.Text(n))
    ensures AmountOf(cell, other) == Some(n)
  {
    InfinityIsLarge();
    BareKeeps(D.Text(n));
    D.ValueOfText(n);
    hide Infinity;
  }

  /** Larger amounts are read as well, and refused as too large rather than as no amount. */
  lemma LargeAmountRead(n: nat, other: Option<int>)
    requires 1_000_000_000 < n < Pow2(1023)
    ensures AmountOf(D.Text(n), other) == Some(n) && AmountErrors(AmountOf(D.Text(n), other)) == [AmountTooLarge]
  {
    Pow2Grows(970, 1023);
    assert Pow2(1024) == 2 * Pow2(1023);
    hide Pow2;
    BareKeeps(D.Text(n));
    D.ValueOfText(n);
  }

  /** A thousands separator and a currency sign, for instance. */
  lemma AmountSeparated(a: string, b: string, n: nat, other: Option<int>)
    requires n <= 1_000_000_000 && a + b == D.Text(n)
    ensures AmountOf(a + "," + b + " ₮", other) == Some(n)
  {
    hide D.Text, Csv.IsSpace;
    assert D.AllDigits(a) && D.AllDigits(b) by {
      assert forall i :: 0 <= i < |a| ==> a[i] == D.Text(n)[i];
      assert forall i :: 0 <= i < |b| ==> b[i] == D.Text(n)[|a| + i];
    }
    BareKeeps(a);
    BareKeeps(b);
    BareAppend(a, ",");
    BareAppend(a + ",", b);
    BareAppend(a + "," + b, " ₮");
    Signs();
    AmountRead(a + "," + b + " ₮", n, other);
  }

  lemma Signs()
    ensures Bare(",") == "" && Bare(" ₮") == ""
  {
    BareOne(',');
    BareOne(' ');
    BareOne('₮');
    BareAppend(" ", "₮");
    assert " " + "₮" == " ₮";
  }

  // --------------------------------------------------------------------- dates

  predicate IsDateSeparator(c: char) {
    c in "-/."
  }

  predicate DigitAt(s: string, i: nat) {
    i < |s| && D.IsDigit(s[i])
  }

  /** The length of the one or two digits at a position: two where there are two. */
  function DigitsAt(s: string, i: nat): (n: nat)
    ensures n <= 2
    ensures n > 0 ==> i + n <= |s| && D.AllDigits(s[i..i + n])
  {
    if !DigitAt(s, i) then 0 else if !DigitAt(s, i + 1) then 1 else 2
  }

  /** The beginning of the text as a year of four digits, a month and a day; what follows is not looked at. */
  function DateParts(s: string): Option<(nat, nat, nat)> {
    if |s| < 5 || !D.AllDigits(s[..4]) || !IsDateSeparator(s[4]) then None
    else
      var m := DigitsAt(s, 5);
      if m == 0 || |s| <= 5 + m || !IsDateSeparator(s[5 + m]) then None
      else
        var d := DigitsAt(s, 6 + m);
        if d == 0 then None
        else Some((D.Value(s[..4]), D.Value(s[5..5 + m]), D.Value(s[6 + m..6 + m + d])))
  }

  /** The date of the parts. `Date.UTC` carries days and months over, so no parts are refused. */
  function DateOf(s: string): Option<int> {
    match DateParts(s)
    case None => None
    case Some((y, m, d)) => Some(C.DateUtc(y, m - 1, d, 0))
  }

  /** The text begins with a year of four digits, a month of `m` digits and a day of `d` digits. */
  ghost predicate Dated(s: string, m: nat, d: nat) {
    && 1 <= m <= 2 && 1 <= d <= 2 && |s| >= 6 + m + d
    && D.AllDigits(s[..4]) && D.AllDigits(s[5..5 + m]) && D.AllDigits(s[6 + m..6 + m + d])
    && s[4] in ['-', '/', '.'] && s[5 + m] in ['-', '/', '.']
  }

  /** A date is read exactly from texts that begin like one: with as many digits for the day as there are. */
  lemma DatePartsExactly(s: string)
    ensures DateParts(s).Some? <==> exists m, d :: Dated(s, m, d)
    ensures forall m: nat, d: nat ::
      Dated(s, m, d) && (d == 2 || |s| == 7 + m || !D.IsDigit(s[7 + m])) ==>
        DateParts(s) == Some((D.Value(s[..4]), D.Value(s[5..5 + m]), D.Value(s[6 + m..6 + m + d])))
  {
    hide D.Value;
    var m := DigitsAt(s, 5);
    if DateParts(s).Some? { assert Dated(s, m, DigitsAt(s, 6 + m)); }
    forall m', d: nat | Dated(s, m', d) ensures m' == m && 1 <= DigitsAt(s, 6 + m) && d <= DigitsAt(s, 6 + m) {
      DatedDigits(s, m', d);
    }
  }

  lemma DatedDigits(s: string, m: nat, d: nat)
    requires Dated(s, m, d)
    ensures m == DigitsAt(s, 5) && 1 <= d <= DigitsAt(s, 6 + m)
  {
    assert s[5] == s[5..5 + m][0] && (m == 2 ==> s[6] == s[5..5 + m][1]);
    assert s[6 + m] == s[6 + m..6 + m + d][0] && (d == 2 ==> s[7 + m] == s[6 + m..6 + m + d][1]);
  }

  /** A date written with two digits for month and day, whatever follows it. */
  lemma DatePartsRead(s: string)
    requires |s| >= 10 && D.AllDigits(s[..4]) && IsDateSeparator(s[4]) && IsDateSeparator(s[7])
    requires DigitAt(s, 5) && DigitAt(s, 6) && DigitAt(s, 8) && DigitAt(s, 9)
    ensures D.AllDigits(s[5..7]) && D.AllDigits(s[8..10])
    ensures DateParts(s) == Some((D.Value(s[..4]), D.Value(s[5..7]), D.Value(s[8..10])))
  {
    hide D.Value;
    assert DigitsAt(s, 5) == 2 && DigitsAt(s, 8) == 2;
  }

  /** The parts are those of a day that exists, in a year that `Date.UTC` takes as it is written. */
  predicate Exists(y: nat, m: nat, d: nat) {
    y >= 100 && 1 <= m <= 12 && 1 <= d <= C.FirstDay(12 * y + m) - C.FirstDay(12 * y + m - 1)
  }

  /** The time is the start of the written day of the written month. */
  predicate IsDay(t: int, y: nat, m: nat, d: nat) {
    C.MonthOf(t) == C.Cycle(y, m) && t == (C.FirstDay(12 * y + m - 1) + d - 1) * C.DAY
  }

  lemma DayInMonth(f: int, g: int, d: int)
    ensures f * C.DAY <= (f + d - 1) * C.DAY < g * C.DAY <==> 1 <= d <= g - f
  {
  }

  lemma DayExactly(y: nat, m: nat, d: nat)
    requires y >= 100
    ensures IsDay((C.FirstDay(12 * y + m - 1) + d - 1) * C.DAY, y, m, d) <==> Exists(y, m, d)
  {
    hide C.FirstDay, C.YearFromDay, C.MonthFromDay;
    var n := 12 * y + m - 1;
    var f, g := C.FirstDay(n), C.FirstDay(n + 1);
    var t := (f + d - 1) * C.DAY;
    C.MonthIndex(t, n);
    DayInMonth(f, g, d);
    hide C.MonthOf;
    if 1 <= m <= 12 { C.SameIndex(C.MonthOf(t), C.Cycle(y, m)); }
  }

  /** The stored due date is the written one if and only if that day exists and its year is not one of 0 to 99. */
  lemma DatesExactly(s: string, y: nat, m: nat, d: nat)
    requires DateParts(s) == Some((y, m, d))
    ensures DateOf(s).Some? && (IsDay(DateOf(s).value, y, m, d) <==> Exists(y, m, d))
  {
    hide DateParts, C.FirstDay, C.MonthOf;
    var n := 12 * y + m - 1;
    if y >= 100 {
      DayExactly(y, m, d);
    } else {
      C.MonthsInOrder(n, n + 12 * 1900);
      assert DateOf(s).value == (C.FirstDay(n + 12 * 1900) + d - 1) * C.DAY;
    }
  }

  lemma TwoDigits(a: char, b: char)
    requires D.IsDigit(a) && D.IsDigit(b)
    ensures D.Value([a, b]) == 10 * (a as int - 48) + (b as int - 48)
  {
    assert [a, b][..1] == [a] && [a][..0] == [];
    assert D.Value([a]) == a as int - 48;
  }

  lemma YearDigits()
    ensures D.Value("2026") == 2026
  {
    assert "2026"[..3] == "202" && "202"[..2] == ['2', '0'];
    TwoDigits('2', '0');
  }

  lemma February31()
    ensures DateParts("2026-02-31") == Some((2026, 2, 31))
  {
    hide DateParts, D.Value;
    var s := "2026-02-31";
    assert s[..4] == "2026" && s[5..7] == ['0', '2'] && s[8..10] == ['3', '1'];
    YearDigits();
    TwoDigits('0', '2');
    TwoDigits('3', '1');
    DatePartsRead(s);
  }

  lemma March3()
    ensures DateParts("2026-03-03") == Some((2026, 3, 3))
  {
    hide DateParts, D.Value;
    var s := "2026-03-03";
    assert s[..4] == "2026" && s[5..7] == ['0', '3'] && s[8..10] == ['0', '3'];
    YearDigits();
    TwoDigits('0', '3');
    DatePartsRead(s);
  }

  /** A due date that does not exist is not refused: 31 February 2026 becomes 3 March. */
  lemma DatesRollOver()
    ensures DateParts("2026-02-31") == Some((2026, 2, 31)) && DateParts("2026-03-03") == Some((2026, 3, 3))
    ensures DateOf("2026-02-31") == DateOf("2026-03-03")
  {
    hide DateParts, C.FirstDay;
    February31();
    March3();
    C.FirstDayIn(2026, 1);
    C.FirstDayIn(2026, 2);
  }

  // -------------------------------------------------------------------- e-mail

  /** The pattern of an address: one at sign, something on both sides, and a dot before the last two or more. */
  ghost predicate LooksLikeEmail(e: string) {
    exists at, dot ::
      && 0 < at && at + 1 < dot < |e| && e[at] == '@' && e[dot] == '.' && T.Length(e[dot + 1..]) >= 2
      && forall k :: 0 <= k < |e| && k != at ==> e[k] != '@' && !Csv.IsSpace(e[k])
  }

  /** Neither an at sign nor white space. */
  predicate AddressPart(s: string) {
    forall i :: 0 <= i < |s| ==> s[i] != '@' && !Csv.IsSpace(s[i])
  }

  lemma EmailRead(a: string, b: string, c: string)
    requires a != "" && b != "" && T.Length(c) >= 2 && AddressPart(a) && AddressPart(b) && AddressPart(c)
    ensures LooksLikeEmail(a + "@" + b + "." + c)
  {
    hide T.Length;
    var e := a + "@" + b + "." + c;
    var at, dot := |a|, |a| + 1 + |b|;
    assert e[at] == '@' && e[dot] == '.' && e[dot + 1..] == c;
    forall k | 0 <= k < |e| && k != at ensures e[k] != '@' && !Csv.IsSpace(e[k]) {
      if k < at { assert e[k] == a[k]; }
      else if k < dot { assert e[k] == b[k - at - 1]; }
      else if k > dot { assert e[k] == c[k - dot - 1]; }
    }
  }

  /** With a single dot the address looks right exactly if there is something before it and two units after it. */
  lemma EmailExactly(a: string, b: string, c: string)
    requires AddressPart(a) && AddressPart(b) && AddressPart(c) && '.' !in b && '.' !in c
    ensures LooksLikeEmail(a + "@" + b + "." + c) <==> a != "" && b != "" && T.Length(c) >= 2
  {
    hide T.Length, AddressPart;
    var e := a + "@" + b + "." + c;
    assert e[|a|] == '@' && e[|a| + 1 + |b|] == '.' && e[|a| + 1 + |b| + 1..] == c;
    assert forall k :: |a| < k < |e| && e[k] == '.' ==> k == |a| + 1 + |b| by {
      assert forall k :: |a| < k < |a| + 1 + |b| ==> e[k] == b[k - |a| - 1];
      assert forall k :: |a| + 1 + |b| < k < |e| ==> e[k] == c[k - |a| - |b| - 2];
    }
    if a != "" && b != "" && T.Length(c) >= 2 { EmailRead(a, b, c); }
  }

  // ---------------------------------------------------------------- validation

  /** A row as read; the e-mail address is trimmed and in lower case. */
  datatype Raw = Raw(rowNo: nat, phone: string, amount: string, description: string, due: string,
                     name: string, email: Option<string>, customerRef: string)

  datatype Error = BadPhone | BadAmount | AmountTooLarge | NoDescription | LongDescription | BadDate

  datatype Warning = DoubtfulEmail | PastDate | DuplicateOf(rowNo: nat)

  datatype Normalized = Normalized(phone: string, amount: int, description: string, due: Option<int>, name: string,
                                   email: Option<string>, customerRef: Option<string>)

  datatype Validated = Validated(rowNo: nat, normalized: Option<Normalized>, errors: seq<Error>, warnings: seq<Warning>)

  function PhoneErrors(phone: Option<string>): seq<Error> {
    if phone.None? then [BadPhone] else []
  }

  function AmountErrors(amount: Option<int>): seq<Error> {
    if amount.None? || amount.value <= 0 then [BadAmount]
    else if amount.value > MAX_INVOICE_AMOUNT then [AmountTooLarge]
    else []
  }

  function DescriptionErrors(description: string): seq<Error> {
    if description == "" then [NoDescription]
    else if T.Length(description) > 160 then [LongDescription]
    else []
  }

  function DateErrors(due: string): seq<Error> {
    if due != "" && DateOf(due).None? then [BadDate] else []
  }

  function NonEmpty(s: string): Option<string> {
    if s == "" then None else Some(s)
  }

  /** `validateRow`: the errors in order, and the normalised values when there are none. */
  ghost function ValidateRow(raw: Raw, other: Option<int>, now: int): Validated {
    var phone := NormalizeMnPhone(raw.phone);
    var amount := AmountOf(raw.amount, other);
    var description, rawDue := Csv.Trim(raw.description), Csv.Trim(raw.due);
    var due := if rawDue == "" then None else DateOf(rawDue);
    var errors := PhoneErrors(phone) + AmountErrors(amount) + DescriptionErrors(description) + DateErrors(rawDue);
    var warnings := (if raw.email.Some? && !LooksLikeEmail(raw.email.value) then [DoubtfulEmail] else [])
                    + (if due.Some? && due.value < now - C.DAY then [PastDate] else []);
    var name := Csv.Trim(raw.name);
    var normalized :=
      if errors == [] && phone.Some? then
        Some(Normalized(phone.value, amount.value, description, due,
                        if name != "" then name else "Харилцагч " + phone.value[|phone.value| - 4..],
                        raw.email, NonEmpty(Csv.Trim(raw.customerRef))))
      else None;
    Validated(raw.rowNo, normalized, errors, warnings)
  }

  /** A row is valid exactly when its phone, amount, description and date are acceptable. */
  lemma ValidExactly(raw: Raw, other: Option<int>, now: int)
    ensures var v := ValidateRow(raw, other, now);
      var amount, due := AmountOf(raw.amount, other), Csv.Trim(raw.due);
      && (v.normalized.Some? <==> v.errors == [])
      && (v.normalized.Some? ==>
            Normal(v.normalized.value.phone) && 0 < v.normalized.value.amount <= 1_000_000_000)
      && (v.errors == [] <==>
            && NormalizeMnPhone(raw.phone).Some?
            && amount.Some? && 0 < amount.value <= 1_000_000_000
            && !Csv.Blank(raw.description) && T.Length(Csv.Trim(raw.description)) <= 160
            && (due == "" || DateParts(due).Some?))
  {
    hide AmountOf, DateParts, LooksLikeEmail;
    NormalizedForm(raw.phone);
  }

  lemma InFour(a: seq<Error>, b: seq<Error>, c: seq<Error>, d: seq<Error>)
    ensures forall e :: e in a + b + c + d <==> e in a || e in b || e in c || e in d
  {
  }

  /** The errors of a row are those of its phone, amount, description and due date. */
  lemma ErrorsOf(raw: Raw, other: Option<int>, now: int)
    ensures forall e :: e in ValidateRow(raw, other, now).errors <==>
      || e in PhoneErrors(NormalizeMnPhone(raw.phone)) || e in AmountErrors(AmountOf(raw.amount, other))
      || e in DescriptionErrors(Csv.Trim(raw.description)) || e in DateErrors(Csv.Trim(raw.due))
  {
    hide AmountOf, DateOf, LooksLikeEmail, NormalizeMnPhone, T.Length, Csv.Blank, Csv.Trim;
    hide PhoneErrors, AmountErrors, DescriptionErrors, DateErrors;
    InFour(PhoneErrors(NormalizeMnPhone(raw.phone)), AmountErrors(AmountOf(raw.amount, other)),
           DescriptionErrors(Csv.Trim(raw.description)), DateErrors(Csv.Trim(raw.due)));
  }

  lemma NumberErrors(phone: Option<string>, amount: Option<int>)
    ensures forall e :: e in PhoneErrors(phone) <==> e == BadPhone && phone.None?
    ensures forall e :: e in AmountErrors(amount) <==>
      || (e == BadAmount && (amount.None? || amount.value <= 0))
      || (e == AmountTooLarge && amount.Some? && amount.value > 1_000_000_000)
  {
  }

  lemma TextErrors(description: string, due: string)
    ensures forall e :: e in DescriptionErrors(Csv.Trim(description)) <==>
      || (e == NoDescription && Csv.Blank(description))
      || (e == LongDescription && T.Length(Csv.Trim(description)) > 160)
    ensures forall e :: e in DateErrors(due) <==> e == BadDate && due != "" && DateParts(due).None?
  {
    assert Csv.Trim(description) == "" ==> T.Length(Csv.Trim(description)) == 0;
    hide DateParts, T.Length, Csv.Blank, Csv.Trim;
  }

  /** Each error is reported exactly if its own check fails, whatever the others say. */
  lemma ErrorsExactly(raw: Raw, other: Option<int>, now: int)
    ensures var errors, amount := ValidateRow(raw, other, now).errors, AmountOf(raw.amount, other);
      && (BadPhone in errors <==> NormalizeMnPhone(raw.phone).None?)
      && (BadAmount in errors <==> amount.None? || amount.value <= 0)
      && (AmountTooLarge in errors <==> amount.Some? && amount.value > 1_000_000_000)
      && (NoDescription in errors <==> Csv.Blank(raw.description))
      && (LongDescription in errors <==> T.Length(Csv.Trim(raw.description)) > 160)
      && (BadDate in errors <==> !Csv.Blank(raw.due) && DateParts(Csv.Trim(raw.due)).None?)
  {
    hide AmountOf, DateParts, NormalizeMnPhone, T.Length, Csv.Blank, Csv.Trim, ValidateRow;
    hide PhoneErrors, AmountErrors, DescriptionErrors, DateErrors;
    ErrorsOf(raw, other, now);
    NumberErrors(NormalizeMnPhone(raw.phone), AmountOf(raw.amount, other));
    TextErrors(raw.description, Csv.Trim(raw.due));
  }

  /** What a valid row is stored with, and the warnings it gets. */
  lemma StoredValues(raw: Raw, other: Option<int>, now: int)
    ensures var v := ValidateRow(raw, other, now);
      var due := if Csv.Blank(raw.due) then None else DateOf(Csv.Trim(raw.due));
      && v.rowNo == raw.rowNo
      && (PastDate in v.warnings <==> due.Some? && due.value < now - 86_400_000)
      && (DoubtfulEmail in v.warnings <==> raw.email.Some? && !LooksLikeEmail(raw.email.value))
      && (v.normalized.Some? ==>
            var n := v.normalized.value;
            && NormalizeMnPhone(raw.phone) == Some(n.phone) && AmountOf(raw.amount, other) == Some(n.amount)
            && n.description == Csv.Trim(raw.description) && n.due == due && n.email == raw.email
            && (!Csv.Blank(raw.name) ==> n.name == Csv.Trim(raw.name))
            && (Csv.Blank(raw.name) ==> |n.phone| == 12 && n.name == "Харилцагч " + n.phone[8..])
            && (n.customerRef.None? <==> Csv.Blank(raw.customerRef))
            && (n.customerRef.Some? ==> n.customerRef.value == Csv.Trim(raw.customerRef)))
  {
    NormalizedForm(raw.phone);
    hide AmountOf, DateOf, LooksLikeEmail, NormalizeMnPhone, T.Length, Csv.Blank, Csv.Trim;
  }

  // ---------------------------------------------------------------- duplicates

  /** Amounts of valid rows are positive; a minus sign is printed all the same. */
  function AmountText(amount: int): string {
    if amount >= 0 then D.Text(amount) else "-" + D.Text(-amount)
  }

  /** The text under which the upload remembers a row: phone, amount and description joined by bars. */
  function Key(n: Normalized): string {
    n.phone + "|" + AmountText(n.amount) + "|" + n.description
  }

  predicate Same(m: Normalized, n: Normalized) {
    m.phone == n.phone && m.amount == n.amount && m.description == n.description
  }

  lemma BarSplit(a: string, s: string, b: string, t: string)
    requires a + "|" + s == b + "|" + t && '|' !in a && '|' !in b
    ensures a == b && s == t
  {
    var x, y := a + "|" + s, b + "|" + t;
    assert x[|a|] == '|' && y[|b|] == '|';
    assert forall i :: 0 <= i < |a| ==> x[i] == a[i] != '|';
    assert forall i :: 0 <= i < |b| ==> y[i] == b[i] != '|';
    assert |a| == |b|;
    assert a == x[..|a|] && b == y[..|b|];
    assert s == x[|a| + 1..] && t == y[|b| + 1..];
  }

  lemma AmountTextInjective(m: int, n: int)
    requires AmountText(m) == AmountText(n)
    ensures m == n
  {
    MinusFirst(m);
    MinusFirst(n);
    if m >= 0 {
      D.ValueOfText(m);
      D.ValueOfText(n);
    } else {
      assert AmountText(m)[1..] == D.Text(-m) && AmountText(n)[1..] == D.Text(-n);
      D.ValueOfText(-m);
      D.ValueOfText(-n);
    }
  }

  lemma MinusFirst(n: int)
    ensures AmountText(n)[0] == '-' <==> n < 0
  {
    if n >= 0 { assert D.IsDigit(AmountText(n)[0]); }
  }

  lemma NoBars(n: Normalized)
    requires Normal(n.phone)
    ensures '|' !in n.phone && '|' !in AmountText(n.amount)
  {
    forall i | 0 <= i < |n.phone| ensures n.phone[i] != '|' {
      if i < 4 { assert n.phone[i] == n.phone[..4][i]; } else { assert n.phone[i] == n.phone[4..][i - 4]; }
    }
  }

  /** The joined key is injective on normalised rows, also for descriptions that contain bars. */
  lemma KeyInjective(m: Normalized, n: Normalized)
    requires Normal(m.phone) && Normal(n.phone)
    ensures Key(m) == Key(n) <==> Same(m, n)
    ensures Key(m) == Key(n) <==> m.phone == n.phone && m.amount == n.amount && m.description == n.description
  {
    NoBars(m);
    NoBars(n);
    if Key(m) == Key(n) {
      var s, t := AmountText(m.amount) + "|" + m.description, AmountText(n.amount) + "|" + n.description;
      assert Key(m) == m.phone + "|" + s && Key(n) == n.phone + "|" + t;
      BarSplit(m.phone, s, n.phone, t);
      BarSplit(AmountText(m.amount), m.description, AmountText(n.amount), n.description);
      AmountTextInjective(m.amount, n.amount);
    }
  }

  ghost predicate Clean(rows: seq<Validated>) {
    forall i :: 0 <= i < |rows| && rows[i].normalized.Some? ==> Normal(rows[i].normalized.value.phone)
  }

  /** The first of the first `n` rows with the same phone, amount and description; `n` if there is none. */
  ghost function FirstSame(rows: seq<Validated>, m: Normalized, n: nat): (i: nat)
    requires n <= |rows|
    ensures i <= n
    ensures i < n ==> rows[i].normalized.Some? && Same(rows[i].normalized.value, m)
    ensures forall j :: 0 <= j < i && rows[j].normalized.Some? ==> !Same(rows[j].normalized.value, m)
  {
    if n == 0 then 0
    else
      var i := FirstSame(rows, m, n - 1);
      if i < n - 1 || (rows[n - 1].normalized.Some? && Same(rows[n - 1].normalized.value, m)) then i else n
  }

  /** A valid row with an earlier same one is warned about, by the number of the first of those. */
  ghost predicate Marked(rows: seq<Validated>, i: nat, row: Validated)
    requires i < |rows|
  {
    var n := rows[i].normalized;
    if n.None? then row == rows[i]
    else
      var first := FirstSame(rows, n.value, i);
      row == if first == i then rows[i] else rows[i].(warnings := rows[i].warnings + [DuplicateOf(rows[first].rowNo)])
  }

  /** The upload's map after `n` rows: a key leads to the number of the first row that has it. */
  ghost predicate SeenIs(seen: map<string, nat>, rows: seq<Validated>, n: nat)
    requires n <= |rows|
  {
    forall m: Normalized :: Normal(m.phone) ==>
      var first := FirstSame(rows, m, n);
      if first == n then Key(m) !in seen else Key(m) in seen && seen[Key(m)] == rows[first].rowNo
  }

  lemma SeenNext(seen: map<string, nat>, rows: seq<Validated>, n: nat)
    requires n < |rows| && SeenIs(seen, rows, n) && Clean(rows)
    ensures var row := rows[n];
      SeenIs(if row.normalized.None? || Key(row.normalized.value) in seen then seen
             else seen[Key(row.normalized.value) := row.rowNo], rows, n + 1)
  {
    hide Key, Normal;
    var row := rows[n];
    forall m: Normalized | Normal(m.phone)
      ensures row.normalized.Some? ==> (Key(m) == Key(row.normalized.value) <==> Same(m, row.normalized.value)) {
      if row.normalized.Some? { KeyInjective(m, row.normalized.value); }
    }
  }

  /** The duplicate detection of the upload, row by row with the map of the keys seen so far. */
  method MarkDuplicates(rows: seq<Validated>) returns (marked: seq<Validated>)
    requires Clean(rows)
    ensures |marked| == |rows|
    ensures forall i :: 0 <= i < |rows| ==> Marked(rows, i, marked[i])
  {
    hide Key, Normal, FirstSame, Same;
    marked := [];
    var seen: map<string, nat> := map[];
    assert SeenIs(seen, rows, 0);
    hide SeenIs;
    for i := 0 to |rows|
      invariant |marked| == i && SeenIs(seen, rows, i)
      invariant forall j :: 0 <= j < i ==> Marked(rows, j, marked[j])
    {
      SeenNext(seen, rows, i);
      var v := rows[i];
      if v.normalized.None? {
        marked := marked + [v];
      } else {
        var key := Key(v.normalized.value);
        SeenAt(seen, rows, i, v.normalized.value);
        if key in seen {
          marked := marked + [v.(warnings := v.warnings + [DuplicateOf(seen[key])])];
        } else {
          marked := marked + [v];
          seen := seen[key := v.rowNo];
        }
      }
    }
  }

  lemma SeenAt(seen: map<string, nat>, rows: seq<Validated>, n: nat, m: Normalized)
    requires n <= |rows| && SeenIs(seen, rows, n) && Normal(m.phone)
    ensures var first := FirstSame(rows, m, n);
      if first == n then Key(m) !in seen else Key(m) in seen && seen[Key(m)] == rows[first].rowNo
  {
  }

  /** Row `j` is valid and has the phone, amount and description. */
  ghost predicate SameRow(rows: seq<Validated>, j: nat, n: Normalized)
    requires j < |rows|
  {
    && rows[j].normalized.Some? && rows[j].normalized.value.phone == n.phone
    && rows[j].normalized.value.amount == n.amount && rows[j].normalized.value.description == n.description
  }

  /**
    Duplicate marking is exact: a valid row gets a warning if and only if an earlier valid row has the same
    phone, amount and description, and the warning names the first of those.
  */
  lemma DuplicatesExactly(rows: seq<Validated>, i: nat, row: Validated)
    requires i < |rows| && rows[i].normalized.Some? && Marked(rows, i, row)
    ensures var n := rows[i].normalized.value;
      && (row.warnings != rows[i].warnings <==> exists j :: 0 <= j < i && SameRow(rows, j, n))
      && (row.warnings != rows[i].warnings ==>
            exists j :: 0 <= j < i && SameRow(rows, j, n) && (forall k :: 0 <= k < j ==> !SameRow(rows, k, n))
              && row == rows[i].(warnings := rows[i].warnings + [DuplicateOf(rows[j].rowNo)]))
  {
    var n := rows[i].normalized.value;
    var first := FirstSame(rows, n, i);
    assert forall j :: 0 <= j < i ==>
      (SameRow(rows, j, n) <==> rows[j].normalized.Some? && Same(rows[j].normalized.value, n));
    hide Same;
    if first < i {
      assert SameRow(rows, first, n) && forall k :: 0 <= k < first ==> !SameRow(rows, k, n);
      assert |row.warnings| == |rows[i].warnings| + 1;
    }
  }

  // -------------------------------------------------------------------- totals

  /** The rows stored as valid, in order. */
  function ValidRows(rows: seq<Validated>): (valid: seq<Normalized>)
  {
    if rows == [] then []
    else
      var n := |rows| - 1;
      ValidRows(rows[..n])
      + if rows[n].errors == [] && rows[n].normalized.Some? then [rows[n].normalized.value] else []
  }

  /** Every row without errors is stored, once and in order, and no other. */
  lemma {:induction false} ValidRowsAppend(a: seq<Validated>, b: seq<Validated>)
    ensures ValidRows(a + b) == ValidRows(a) + ValidRows(b)
  {
    if b == [] {
      assert a + b == a;
    } else {
      var n := |b| - 1;
      assert (a + b)[..|a| + n] == a + b[..n];
      ValidRowsAppend(a, b[..n]);
    }
  }

  lemma ValidRowsOne(row: Validated)
    ensures row.errors == [] && row.normalized.Some? ==> ValidRows([row]) == [row.normalized.value]
    ensures row.errors != [] || row.normalized.None? ==> ValidRows([row]) == []
  {
    assert [row][..0] == [];
  }

  function TotalAmount(valid: seq<Normalized>): int {
    if valid == [] then 0 else TotalAmount(valid[..|valid| - 1]) + valid[|valid| - 1].amount
  }

  datatype Totals = Totals(rowCount: nat, validCount: nat, errorCount: nat, totalAmount: int)

  /** The counters of the upload; duplicates are only warned about, so they stay valid. */
  method Totalize(rows: seq<Validated>) returns (t: Totals)
    ensures t.validCount == |ValidRows(rows)| && t.totalAmount == TotalAmount(ValidRows(rows))
    ensures t.rowCount == |rows| == t.validCount + t.errorCount
  {
    var valid: seq<Normalized> := [];
    for i := 0 to |rows|
      invariant valid == ValidRows(rows[..i]) && |valid| <= i
    {
      assert rows[..i + 1][..i] == rows[..i];
      if rows[i].errors == [] && rows[i].normalized.Some? { valid := valid + [rows[i].normalized.value]; }
    }
    assert rows[..|rows|] == rows;
    var total := 0;
    for i := 0 to |valid|
      invariant total == TotalAmount(valid[..i])
    {
      assert valid[..i + 1][..i] == valid[..i];
      total := total + valid[i].amount;
    }
    assert valid[..|valid|] == valid;
    t := Totals(|rows|, |valid|, |rows| - |valid|, total);
  }
}
