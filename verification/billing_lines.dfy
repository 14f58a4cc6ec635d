/** What a service bill says: its lines, their sum and the tax on top. */
module BillingLines {
  import opened Options
  import opened Services
  import opened Sums

  /** One INVOICE_MSG_SENT event. */
  datatype Usage = Usage(tenant: nat, service: Service, qty: nat, at: int)

  datatype Code = Messages(service: Service) | Tier | Terminals | OneTime

  datatype Line = Line(code: Code, qty: nat, unitPrice: int, amount: int)

  datatype TierRow = TierRow(upTo: Option<nat>, fee: int)

  /** The rates in force for a tenant: its agreed prices where it has them, the platform's otherwise. */
  datatype Tariff = Tariff(excelUnit: int, apiUnit: int, tiers: seq<TierRow>, ebarimtApi: bool, tier: Option<int>,
                           perDevice: int, vatPercent: int)

  datatype Counts = Counts(excel: nat, api: nat, terminals: nat)

  datatype Computed = Computed(lines: seq<Line>, subtotal: int, vat: int, total: int)

  // ----------------------------------------------------------------- counting

  function Counted(e: Usage, tenant: nat, service: Service, since: int, until: int): bool {
    e.tenant == tenant && e.service == service && since <= e.at < until
  }

  /** The units of a tenant's service in a half-open window. */
  function Units(usage: seq<Usage>, tenant: nat, service: Service, since: int, until: int): nat {
    if usage == [] then 0
    else
      var n := |usage| - 1;
      Units(usage[..n], tenant, service, since, until)
      + if Counted(usage[n], tenant, service, since, until) then usage[n].qty else 0
  }

  function Subtotal(lines: seq<Line>): int {
    if lines == [] then 0 else Subtotal(lines[..|lines| - 1]) + lines[|lines| - 1].amount
  }

  function Qty(lines: seq<Line>, code: Code): nat {
    if lines == [] then 0
    else
      var n := |lines| - 1;
      Qty(lines[..n], code) + if lines[n].code == code then lines[n].qty else 0
  }

  lemma {:induction false} SumsAppend(a: seq<Line>, b: seq<Line>, code: Code)
    ensures Subtotal(a + b) == Subtotal(a) + Subtotal(b)
    ensures Qty(a + b, code) == Qty(a, code) + Qty(b, code)
  {
    if b == [] {
      assert a + b == a;
    } else {
      var n := |b| - 1;
      assert (a + b)[..|a| + n] == a + b[..n];
      SumsAppend(a, b[..n], code);
    }
  }

  // -------------------------------------------------------------------- rules

  /** `Math.round`: to the nearest whole number, halves upwards. */
  function VatOf(subtotal: int, vatPercent: int): (vat: int)
    ensures -50 <= subtotal * vatPercent - 100 * vat < 50
  {
    (subtotal * vatPercent + 50) / 100
  }

  /** A tier outside the table counts as the first. */
  function TierFee(tariff: Tariff): int
    requires tariff.tiers != []
  {
    var t := tariff.tier.GetOr(0);
    if 1 <= t <= |tariff.tiers| then tariff.tiers[t - 1].fee else tariff.tiers[0].fee
  }

  function Priced(code: Code, qty: nat, unitPrice: int): seq<Line> {
    if qty > 0 then [Line(code, qty, unitPrice, qty * unitPrice)] else []
  }

  function ChargeLines(amounts: seq<int>): (lines: seq<Line>)
    ensures |lines| == |amounts|
  {
    if amounts == [] then []
    else
      var n := |amounts| - 1;
      ChargeLines(amounts[..n]) + [Line(OneTime, 1, amounts[n], amounts[n])]
  }

  function UsageLines(tariff: Tariff, counts: Counts): seq<Line>
    requires tariff.tiers != []
  {
    Priced(Messages(ExcelSms), counts.excel, tariff.excelUnit)
    + Priced(Messages(ApiSms), counts.api, tariff.apiUnit)
    + Priced(Tier, if tariff.ebarimtApi then 1 else 0, TierFee(tariff))
    + Priced(Terminals, counts.terminals, tariff.perDevice)
  }

  function Lines(tariff: Tariff, counts: Counts, amounts: seq<int>): seq<Line>
    requires tariff.tiers != []
  {
    UsageLines(tariff, counts) + ChargeLines(amounts)
  }

  function Compute(tariff: Tariff, counts: Counts, amounts: seq<int>): Computed
    requires tariff.tiers != []
  {
    var lines := Lines(tariff, counts, amounts);
    var subtotal := Subtotal(lines);
    var vat := VatOf(subtotal, tariff.vatPercent);
    Computed(lines, subtotal, vat, subtotal + vat)
  }

  lemma {:induction false} ChargeSums(amounts: seq<int>, code: Code)
    ensures Subtotal(ChargeLines(amounts)) == Total(amounts)
    ensures Qty(ChargeLines(amounts), code) == if code == OneTime then |amounts| else 0
  {
    if amounts != [] {
      var n := |amounts| - 1;
      ChargeSums(amounts[..n], code);
      assert ChargeLines(amounts)[..n] == ChargeLines(amounts[..n]);
    }
  }

  lemma PricedSums(c: Code, qty: nat, unitPrice: int, code: Code)
    ensures Subtotal(Priced(c, qty, unitPrice)) == qty * unitPrice
    ensures Qty(Priced(c, qty, unitPrice), code) == if c == code then qty else 0
  {
    assert Priced(c, qty, unitPrice) != [] ==> Priced(c, qty, unitPrice)[..0] == [];
  }

  lemma UsageSums(tariff: Tariff, counts: Counts, code: Code)
    requires tariff.tiers != []
    ensures Subtotal(UsageLines(tariff, counts)) ==
            counts.excel * tariff.excelUnit + counts.api * tariff.apiUnit
            + (if tariff.ebarimtApi then TierFee(tariff) else 0) + counts.terminals * tariff.perDevice
    ensures Qty(UsageLines(tariff, counts), code) ==
            match code
            case Messages(service) => (if service == ExcelSms then counts.excel else counts.api)
            case Tier => if tariff.ebarimtApi then 1 else 0
            case Terminals => counts.terminals
            case OneTime => 0
  {
    var fee := TierFee(tariff);
    var a := Priced(Messages(ExcelSms), counts.excel, tariff.excelUnit);
    var b := Priced(Messages(ApiSms), counts.api, tariff.apiUnit);
    var c := Priced(Tier, if tariff.ebarimtApi then 1 else 0, fee);
    var d := Priced(Terminals, counts.terminals, tariff.perDevice);
    PricedSums(Messages(ExcelSms), counts.excel, tariff.excelUnit, code);
    PricedSums(Messages(ApiSms), counts.api, tariff.apiUnit, code);
    PricedSums(Tier, if tariff.ebarimtApi then 1 else 0, fee, code);
    PricedSums(Terminals, counts.terminals, tariff.perDevice, code);
    assert UsageLines(tariff, counts) == a + b + c + d;
    hide Priced, TierFee, UsageLines, Subtotal, Qty;
    SumsAppend(a, b, code);
    SumsAppend(a + b, c, code);
    SumsAppend(a + b + c, d, code);
  }

  lemma LineSums(tariff: Tariff, counts: Counts, amounts: seq<int>, code: Code)
    requires tariff.tiers != []
    ensures var u, c := UsageLines(tariff, counts), ChargeLines(amounts);
      && Subtotal(Lines(tariff, counts, amounts)) == Subtotal(u) + Subtotal(c)
      && Qty(Lines(tariff, counts, amounts), code) == Qty(u, code) + Qty(c, code)
  {
    SumsAppend(UsageLines(tariff, counts), ChargeLines(amounts), code);
  }

  /** The fee of the tenant's tier; without a tier, or with one outside the table, that of the first. */
  ghost predicate IsTierFee(tariff: Tariff, fee: int)
    requires tariff.tiers != []
  {
    if tariff.tier.Some? && 1 <= tariff.tier.value <= |tariff.tiers| then fee == tariff.tiers[tariff.tier.value - 1].fee
    else fee == tariff.tiers[0].fee
  }

  /**
    A bill's amounts: the subtotal is every message at its unit price, the tier fee, every terminal and every
    one-time charge; the tax is the nearest whole unit, and the total is both.
  */
  lemma BillAmounts(tariff: Tariff, counts: Counts, amounts: seq<int>, fee: int)
    requires tariff.tiers != [] && IsTierFee(tariff, fee)
    ensures var bill := Compute(tariff, counts, amounts);
      && bill.subtotal == counts.excel * tariff.excelUnit + counts.api * tariff.apiUnit
                          + (if tariff.ebarimtApi then fee else 0)
                          + counts.terminals * tariff.perDevice + Total(amounts)
      && -50 <= bill.subtotal * tariff.vatPercent - 100 * bill.vat < 50
      && bill.total == bill.subtotal + bill.vat
  {
    assert TierFee(tariff) == fee;
    hide UsageLines, ChargeLines, Subtotal, Qty, TierFee, Total, VatOf, Lines;
    LineSums(tariff, counts, amounts, Tier);
    UsageSums(tariff, counts, Tier);
    ChargeSums(amounts, Tier);
  }

  /** The quantities on a bill's lines are the counted messages and terminals, one tier and one per charge. */
  lemma BillQuantities(tariff: Tariff, counts: Counts, amounts: seq<int>, code: Code)
    requires tariff.tiers != []
    ensures Qty(Compute(tariff, counts, amounts).lines, code) ==
            match code
            case Messages(service) => (if service == ExcelSms then counts.excel else counts.api)
            case Tier => if tariff.ebarimtApi then 1 else 0
            case Terminals => counts.terminals
            case OneTime => |amounts|
  {
    hide UsageLines, ChargeLines, Subtotal, Qty, TierFee, Total, VatOf, Lines;
    LineSums(tariff, counts, amounts, code);
    UsageSums(tariff, counts, code);
    ChargeSums(amounts, code);
  }

  /** The price a line of each code is charged at. */
  ghost predicate AtPrice(line: Line, tariff: Tariff)
    requires tariff.tiers != []
  {
    match line.code
    case Messages(service) => line.unitPrice == if service == ExcelSms then tariff.excelUnit else tariff.apiUnit
    case Tier => IsTierFee(tariff, line.unitPrice)
    case Terminals => line.unitPrice == tariff.perDevice
    case OneTime => line.qty == 1
  }

  lemma {:induction false} ChargeLineAt(amounts: seq<int>, k: nat)
    requires k < |amounts|
    ensures ChargeLines(amounts)[k] == Line(OneTime, 1, amounts[k], amounts[k])
  {
    if k < |amounts| - 1 { ChargeLineAt(amounts[..|amounts| - 1], k); }
  }

  /** The line is for something, and its amount is its quantity at its code's price. */
  ghost predicate ProperLine(line: Line, tariff: Tariff)
    requires tariff.tiers != []
  {
    line.qty > 0 && line.amount == line.qty * line.unitPrice && AtPrice(line, tariff)
  }

  lemma UsageLinesProper(tariff: Tariff, counts: Counts)
    requires tariff.tiers != []
    ensures forall line <- UsageLines(tariff, counts) :: ProperLine(line, tariff) && line.code != OneTime
  {
  }

  /** Every line is proper; the charges come last, one line each and in order. */
  lemma LinesExactly(tariff: Tariff, counts: Counts, amounts: seq<int>)
    requires tariff.tiers != []
    ensures var lines := Compute(tariff, counts, amounts).lines; var n := |lines| - |amounts|;
      && (forall line <- lines :: ProperLine(line, tariff))
      && n >= 0 && (forall k :: 0 <= k < n ==> lines[k].code != OneTime)
      && (forall k :: 0 <= k < |amounts| ==> lines[n + k] == Line(OneTime, 1, amounts[k], amounts[k]))
  {
    forall k | 0 <= k < |amounts| ensures ChargeLines(amounts)[k] == Line(OneTime, 1, amounts[k], amounts[k]) {
      ChargeLineAt(amounts, k);
    }
    UsageLinesProper(tariff, counts);
    hide ChargeLines, UsageLines, Subtotal, Qty, Total, VatOf;
    var lines, u := Compute(tariff, counts, amounts).lines, UsageLines(tariff, counts);
    assert lines == u + ChargeLines(amounts);
    forall k | 0 <= k < |lines| ensures ProperLine(lines[k], tariff) {
      if k < |u| { assert lines[k] == u[k]; } else { assert lines[k] == ChargeLines(amounts)[k - |u|]; }
    }
  }

  method PushUsage(tariff: Tariff, counts: Counts) returns (lines: seq<Line>)
    requires tariff.tiers != []
    ensures lines == UsageLines(tariff, counts)
  {
    hide TierFee;
    lines := [];
    if counts.excel > 0 {
      lines := lines + [Line(Messages(ExcelSms), counts.excel, tariff.excelUnit, counts.excel * tariff.excelUnit)];
    }
    if counts.api > 0 {
      lines := lines + [Line(Messages(ApiSms), counts.api, tariff.apiUnit, counts.api * tariff.apiUnit)];
    }
    if tariff.ebarimtApi {
      lines := lines + [Line(Tier, 1, TierFee(tariff), TierFee(tariff))];
    }
    if counts.terminals > 0 {
      lines := lines + [Line(Terminals, counts.terminals, tariff.perDevice, counts.terminals * tariff.perDevice)];
    }
  }

  /** `computeLines`: the lines are pushed one after the other, then summed and taxed. */
  method ComputeLines(usage: seq<Usage>, tenant: nat, since: int, until: int, tariff: Tariff, terminals: nat,
                      amounts: seq<int>, billOneTime: bool) returns (r: Computed)
    requires tariff.tiers != []
    ensures r == Compute(tariff,
                         Counts(Units(usage, tenant, ExcelSms, since, until),
                                Units(usage, tenant, ApiSms, since, until), terminals),
                         if billOneTime then amounts else [])
  {
    hide Units, TierFee, UsageLines;
    var counts := Counts(Units(usage, tenant, ExcelSms, since, until), Units(usage, tenant, ApiSms, since, until),
                         terminals);
    var lines := PushUsage(tariff, counts);
    ghost var charges := if billOneTime then amounts else [];
    if billOneTime {
      for i := 0 to |amounts|
        invariant lines == UsageLines(tariff, counts) + ChargeLines(amounts[..i])
      {
        assert amounts[..i + 1][..i] == amounts[..i];
        lines := lines + [Line(OneTime, 1, amounts[i], amounts[i])];
      }
      assert amounts[..|amounts|] == amounts;
    }
    assert lines == Lines(tariff, counts, charges);
    var subtotal := 0;
    for i := 0 to |lines|
      invariant subtotal == Subtotal(lines[..i])
    {
      assert lines[..i + 1][..i] == lines[..i];
      subtotal := subtotal + lines[i].amount;
    }
    assert lines[..|lines|] == lines;
    var vat := VatOf(subtotal, tariff.vatPercent);
    r := Computed(lines, subtotal, vat, subtotal + vat);
  }
}
