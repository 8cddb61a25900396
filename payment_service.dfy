/** The payment processor of the microservices lab: `POST /payments/process`
    succeeds or declines on a random draw, and records successful payments
    under ids taken from a counter. The draw (`Math.random() > 0.1`) and the
    clock (`Date.now()`) are inputs of the model. */
module PaymentService {
  import opened Common

  datatype Payment = Payment(id: nat, userId: Scalar, amount: int, status: string,
                             transactionId: string, processedAt: nat)

  datatype Body =
    | Declined(error: string, code: string)
    | Completed(payment: Payment, message: string)

  datatype Reply = Reply(status: int, body: Body)

  /** The reply to one request and the ledger (records and counter) after it. */
  datatype Processed = Processed(reply: Reply, payments: seq<Payment>, counter: nat)

  /** `POST /payments/process` as a transition of the ledger. `approved` is the
      outcome of the random draw; `now` is the clock reading that names the
      transaction and stamps the record. */
  function Process(payments: seq<Payment>, counter: nat, userId: Scalar, amount: int,
                   approved: bool, now: nat): (p: Processed)
    ensures p.reply.body.Completed? <==> p.reply.status == 200
  {
    if !approved then
      Processed(Reply(400, Declined("Payment declined", "CARD_DECLINED")), payments, counter)
    else
      var payment := Payment(counter, userId, amount, "completed", "txn_" + NatToString(now), now);
      Processed(Reply(200, Completed(payment, "Payment processed successfully")),
                payments + [payment], counter + 1)
  }

  /** The ledger invariant: ids are 1, 2, 3, ... in list order, the counter is
      the next id, and every record is completed with a `txn_` transaction id. */
  ghost predicate LedgerValid(payments: seq<Payment>, counter: nat) {
    && counter == |payments| + 1
    && (forall i :: 0 <= i < |payments| ==> payments[i].id == i + 1)
    && (forall i :: 0 <= i < |payments| ==>
          payments[i].status == "completed" && StartsWith(payments[i].transactionId, "txn_"))
  }

  /** A decline replies 400 CARD_DECLINED and leaves records and counter alone;
      an approval appends exactly one completed record carrying the request's
      userId and amount under the next id, and advances the counter by one. */
  lemma ProcessOutcomes(payments: seq<Payment>, counter: nat, userId: Scalar, amount: int,
                        approved: bool, now: nat)
    ensures var p := Process(payments, counter, userId, amount, approved, now);
      && (!approved ==> p == Processed(Reply(400, Declined("Payment declined", "CARD_DECLINED")), payments, counter))
      && (approved ==>
            && p.reply.status == 200
            && p.counter == counter + 1
            && |p.payments| == |payments| + 1
            && p.payments[..|payments|] == payments
            && var rec := p.payments[|payments|];
               rec == p.reply.body.payment && rec.id == counter && rec.userId == userId
               && rec.amount == amount && rec.status == "completed"
               && StartsWith(rec.transactionId, "txn_"))
  {
    var p := Process(payments, counter, userId, amount, approved, now);
    if approved {
      assert p.payments[..|payments|] == payments;
    }
  }

  /** The ledger invariant holds from the start and after every request. */
  lemma ProcessKeepsLedgerValid(payments: seq<Payment>, counter: nat, userId: Scalar, amount: int,
                                approved: bool, now: nat)
    requires LedgerValid(payments, counter)
    ensures var p := Process(payments, counter, userId, amount, approved, now);
            LedgerValid(p.payments, p.counter)
  {
    var p := Process(payments, counter, userId, amount, approved, now);
    if approved {
      var t := "txn_" + NatToString(now);
      assert t[..4] == "txn_";
    }
  }

  /** The outcome depends on the draw alone, never on who pays or how much. */
  lemma OutcomeIgnoresRequest(payments: seq<Payment>, counter: nat, u1: Scalar, a1: int,
                              u2: Scalar, a2: int, approved: bool, now: nat)
    ensures Process(payments, counter, u1, a1, approved, now).reply.status
         == Process(payments, counter, u2, a2, approved, now).reply.status
  {
  }

  /** The running service: records and counter are fields updated in place. */
  class PaymentLedger {
    var payments: seq<Payment>
    var paymentIdCounter: nat

    constructor ()
      ensures payments == [] && paymentIdCounter == 1
      ensures LedgerValid(payments, paymentIdCounter)
    {
      payments := [];
      paymentIdCounter := 1;
    }

    /** `POST /payments/process` */
    method ProcessPayment(userId: Scalar, amount: int, approved: bool, now: nat) returns (reply: Reply)
      modifies this
      ensures Processed(reply, payments, paymentIdCounter)
           == Process(old(payments), old(paymentIdCounter), userId, amount, approved, now)
    {
      if !approved {
        return Reply(400, Declined("Payment declined", "CARD_DECLINED"));
      }
      var payment := Payment(paymentIdCounter, userId, amount, "completed", "txn_" + NatToString(now), now);
      paymentIdCounter := paymentIdCounter + 1;
      payments := payments + [payment];
      reply := Reply(200, Completed(payment, "Payment processed successfully"));
    }

    /** `GET /payments`: the records and a count equal to their number. */
    function Listing(): (r: (seq<Payment>, nat))
      reads this
      ensures r.1 == |r.0| && r.0 == payments
    {
      (payments, |payments|)
    }
  }
}
