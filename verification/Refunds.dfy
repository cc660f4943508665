/** Proportional refunds of a recharge order (v3/internal/platform/commerce.go).

    A refund takes `wallet` units back from the customer's wallet and returns
    `external` minor units of money. The service accepts it only if both totals
    stay within the order and the pair has exactly the order's ratio, checked by
    cross-multiplication on unbounded integers. */
module Refunds {
  import opened Arithmetic

  datatype Refund = Refund(wallet: int, external: int)

  datatype Status = Pending | Paid | PartiallyRefunded | FullyRefunded

  function WalletSum(rs: seq<Refund>): int {
    if rs == [] then 0 else WalletSum(rs[..|rs| - 1]) + rs[|rs| - 1].wallet
  }

  function ExternalSum(rs: seq<Refund>): int {
    if rs == [] then 0 else ExternalSum(rs[..|rs| - 1]) + rs[|rs| - 1].external
  }

  /** The arithmetic tests of RefundRecharge for an order already refunded by `used`. */
  predicate Accepts(grant: int, price: int, used: seq<Refund>, r: Refund) {
    && r.wallet > 0 && r.external > 0
    && WalletSum(used) + r.wallet <= grant
    && ExternalSum(used) + r.external <= price
    && r.wallet * price == r.external * grant
  }

  /** The status RefundRecharge writes after accepting `r`. */
  function StatusAfter(grant: int, price: int, used: seq<Refund>, r: Refund): Status {
    if WalletSum(used) + r.wallet == grant && ExternalSum(used) + r.external == price
    then FullyRefunded else PartiallyRefunded
  }

  /** Every refund was accepted on top of the ones before it. */
  predicate Accepted(grant: int, price: int, rs: seq<Refund>) {
    rs == [] ||
    var used := rs[..|rs| - 1];
    Accepted(grant, price, used) && Accepts(grant, price, used, rs[|rs| - 1])
  }

  /** The status of an order with these refunds. */
  function StatusOf(grant: int, price: int, rs: seq<Refund>): Status {
    if rs == [] then Paid else StatusAfter(grant, price, rs[..|rs| - 1], rs[|rs| - 1])
  }

  lemma SumsOfAppend(rs: seq<Refund>, r: Refund)
    ensures WalletSum(rs + [r]) == WalletSum(rs) + r.wallet
    ensures ExternalSum(rs + [r]) == ExternalSum(rs) + r.external
  {
    assert (rs + [r])[..|rs|] == rs;
  }

  lemma AcceptedAppend(grant: int, price: int, rs: seq<Refund>, r: Refund)
    requires Accepted(grant, price, rs) && Accepts(grant, price, rs, r)
    ensures Accepted(grant, price, rs + [r])
    ensures StatusOf(grant, price, rs + [r]) == StatusAfter(grant, price, rs, r)
  {
    assert (rs + [r])[..|rs|] == rs;
  }

  // ---- What every accepted sequence keeps ----

  lemma {:induction false} TotalsStayProportional(grant: int, price: int, rs: seq<Refund>)
    requires grant > 0 && price > 0 && Accepted(grant, price, rs)
    ensures WalletSum(rs) * price == ExternalSum(rs) * grant
    ensures 0 <= WalletSum(rs) <= grant && 0 <= ExternalSum(rs) <= price
  {
    if rs != [] {
      var used, r := rs[..|rs| - 1], rs[|rs| - 1];
      TotalsStayProportional(grant, price, used);
      assert WalletSum(rs) * price == WalletSum(used) * price + r.wallet * price;
      assert ExternalSum(rs) * grant == ExternalSum(used) * grant + r.external * grant;
    }
  }

  /** The wallet side is used up exactly when the money side is, so the test
      behind `refunded` never misses and never fires early. */
  lemma FullTogether(grant: int, price: int, rs: seq<Refund>)
    requires grant > 0 && price > 0 && Accepted(grant, price, rs)
    ensures WalletSum(rs) == grant <==> ExternalSum(rs) == price
    ensures StatusOf(grant, price, rs) == FullyRefunded <==> WalletSum(rs) == grant
    ensures StatusOf(grant, price, rs) == Paid <==> WalletSum(rs) == 0
  {
    TotalsStayProportional(grant, price, rs);
    if WalletSum(rs) == grant { Cancel(ExternalSum(rs), price, grant); }
    if ExternalSum(rs) == price { Cancel(WalletSum(rs), grant, price); }
    if rs != [] { TotalsStayProportional(grant, price, rs[..|rs| - 1]); }
  }

  /** What is left of a partly refunded order can always be refunded at once. */
  lemma RemainderAccepted(grant: int, price: int, rs: seq<Refund>)
    requires grant > 0 && price > 0 && Accepted(grant, price, rs)
    requires StatusOf(grant, price, rs) != FullyRefunded
    ensures var rest := Refund(grant - WalletSum(rs), price - ExternalSum(rs));
            && Accepts(grant, price, rs, rest)
            && StatusAfter(grant, price, rs, rest) == FullyRefunded
  {
    TotalsStayProportional(grant, price, rs);
    FullTogether(grant, price, rs);
  }
}
