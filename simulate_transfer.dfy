/** `simulate_transfer.php`: validate the request, drive the payment
    provider through a test charge and a transfer to the connected account,
    append three audit records, and answer with one JSON envelope. Every SDK
    call is an input (`Remote`); the amount in cents is an input too. */
module SimulateTransfer {
  import opened Php
  import opened Sdk
  import opened Http
  import opened Redact
  import opened AuditLog

  const MissingFields := "account_id e amount_brl são obrigatórios"
  const BelowMinimum := "Valor mínimo é R$ 0,50"
  const PaymentFailed := "Falha ao processar pagamento simulado"
  const NoCharge := "Charge não encontrado no PaymentIntent"
  const Note := "Esta é uma simulação usando tokens de teste do Stripe"
  const MinimumCents := 50
  const IntentKeyPrefix := "pi-sim:"
  const TransferKeyPrefix := "tr-sim:"

  /** The PaymentIntent as `confirm()` hands it back. */
  datatype Intent = Intent(id: Value, status: Value, latestCharge: Value)

  datatype Transfer = Transfer(id: Value, status: Value)

  /** What each SDK call of the script returns or raises, in script order:
      the customer's id, the new intent's id, the payment method's id, the
      attach, the updated intent's id, the confirmed intent, the transfer. */
  datatype Remote = Remote(
    customer: Outcome<Value>,
    intent: Outcome<Value>,
    paymentMethod: Outcome<Value>,
    attach: Outcome<()>,
    update: Outcome<Value>,
    confirm: Outcome<Intent>,
    transfer: Outcome<Transfer>)

  /** The SDK calls the script issues, with the arguments that matter. An
      idempotency key is its prefix; the hash after it is not modelled. */
  datatype Call =
    | CreateCustomer
    | CreatePaymentIntent(amount: int, currency: string, customer: Value, orderRef: Value,
                          connectedAccount: Value, keyPrefix: string)
    | CreatePaymentMethod
    | AttachPaymentMethod(paymentMethod: Value, customer: Value)
    | UpdatePaymentIntent(intent: Value, paymentMethod: Value)
    | ConfirmPaymentIntent(intent: Value)
    | CreateTransfer(amount: int, currency: string, destination: Value, sourceTransaction: Value,
                     transferGroup: Value, paymentIntent: Value, keyPrefix: string)

  /** One entry of the audit trail. `request` and `response` are the arrays
      the script hands to `redact_array`; the store receives them redacted. */
  datatype AuditRecord = AuditRecord(
    id: Value, kind: string, status: string, amount: int, currency: string,
    connectedAccount: Value, applicationFee: Value,
    request: seq<Entry>, response: seq<Entry>,
    webhookType: Value, createdAt: string)

  /** The record as the PHP array handed to the store, with `request` and
      `response` passed through `redact_array`. */
  function ToValue(r: AuditRecord): (v: Value)
    ensures v.Arr?
  {
    Arr([
      E("id", r.id), E("type", Str(r.kind)), E("status", Str(r.status)),
      E("amount", Int(r.amount)), E("currency", Str(r.currency)),
      E("connected_account", r.connectedAccount),
      E("application_fee_amount", r.applicationFee),
      E("request", Arr(RedactArray(r.request))), E("response", Arr(RedactArray(r.response))),
      E("webhook_type", r.webhookType), E("created_at", Str(r.createdAt))])
  }

  /** The first record: the simulated PaymentIntent. */
  function IntentRecord(intentId: Value, cents: int, accountId: Value, amountBrl: Value, now: string): AuditRecord {
    AuditRecord(intentId, "payment_intent", "simulated", cents, "brl", accountId, Null,
      [E("account_id", accountId), E("amount_brl", amountBrl), E("simulation", Bool(true))],
      [E("payment_intent", Arr([E("id", intentId), E("status", Str("simulated"))]))],
      Null, now)
  }

  /** The second record: the charge behind the intent. */
  function ChargeRecord(chargeId: Value, cents: int, accountId: Value, now: string): AuditRecord {
    AuditRecord(chargeId, "charge", "succeeded", cents, "brl", accountId, Null,
      [E("amount", Int(cents)), E("simulation", Bool(true))],
      [E("charge", Arr([E("id", chargeId), E("status", Str("succeeded"))]))],
      Null, now)
  }

  /** The third record: the transfer to the connected account. */
  function TransferRecord(transferId: Value, cents: int, accountId: Value, amountBrl: Value,
                          chargeId: Value, now: string): AuditRecord {
    AuditRecord(transferId, "transfer", "created", cents, "brl", accountId, Null,
      [E("account_id", accountId), E("amount_brl", amountBrl), E("source_transaction", chargeId)],
      [E("transfer", Arr([E("id", transferId), E("amount", Int(cents))]))],
      Null, now)
  }

  /** The `data` of the success envelope. */
  function SuccessData(customerId: Value, intentId: Value, chargeId: Value, tr: Transfer,
                       cents: int, accountId: Value): seq<Entry> {
    [E("simulation", Bool(true)), E("customer_id", customerId), E("payment_intent_id", intentId),
     E("charge_id", chargeId), E("transfer_id", tr.id), E("amount", Int(cents)),
     E("currency", Str("brl")), E("destination", accountId), E("status", tr.status),
     E("note", Str(Note))]
  }

  /** What one run leaves behind: the reply, the SDK calls in the order they
      were issued, and the audit records handed to the store. */
  datatype Trace = Trace(reply: Reply, calls: seq<Call>, audit: seq<AuditRecord>)

  /** The request passes validation: both fields truthy and at least 50 cents. */
  predicate Accepted(payload: Value, cents: int) {
    Truthy(Get(payload, "account_id")) && Truthy(Get(payload, "amount_brl")) && cents >= MinimumCents
  }

  /** The script, start to end. `cents` is `(int) round((float)$amount_brl * 100)`. */
  function Plan(payload: Value, cents: int, remote: Remote, now: string): (r: Trace)
    ensures r.calls == [] <==> !Accepted(payload, cents)
    ensures r.audit != [] ==> Accepted(payload, cents) && |r.calls| == 7 && IsSuccessEnvelope(r.reply)
  {
    var accountId := Get(payload, "account_id");
    var amountBrl := Get(payload, "amount_brl");
    if !Truthy(accountId) || !Truthy(amountBrl) then
      Trace(ErrorResponse(MissingFields, 400, None, now), [], [])
    else if cents < MinimumCents then
      Trace(ErrorResponse(BelowMinimum, 400, None, now), [], [])
    else
      Charge(accountId, amountBrl, Get(payload, "order_ref"), cents, remote, now)
  }

  /** The SDK choreography of an accepted request; it stops at the first
      call that raises, and nothing already done is undone. */
  function Charge(accountId: Value, amountBrl: Value, orderRef: Value, cents: int,
                  remote: Remote, now: string): (r: Trace)
    ensures 1 <= |r.calls| <= 7 && r.calls[0] == CreateCustomer
    ensures r.audit != [] ==> |r.calls| == 7 && |r.audit| == 3 && IsSuccessEnvelope(r.reply)
  {
    var c1 := [CreateCustomer];
    if !remote.customer.Done? then Trace(Caught(remote.customer, now), c1, []) else
    var customerId := remote.customer.value;
    var c2 := c1 + [CreatePaymentIntent(cents, "brl", customerId,
                      if orderRef == Null then Str("") else orderRef, accountId, IntentKeyPrefix)];
    if !remote.intent.Done? then Trace(Caught(remote.intent, now), c2, []) else
    var c3 := c2 + [CreatePaymentMethod];
    if !remote.paymentMethod.Done? then Trace(Caught(remote.paymentMethod, now), c3, []) else
    var methodId := remote.paymentMethod.value;
    var c4 := c3 + [AttachPaymentMethod(methodId, customerId)];
    if !remote.attach.Done? then Trace(Caught(remote.attach, now), c4, []) else
    var c5 := c4 + [UpdatePaymentIntent(remote.intent.value, methodId)];
    if !remote.update.Done? then Trace(Caught(remote.update, now), c5, []) else
    var c6 := c5 + [ConfirmPaymentIntent(remote.update.value)];
    if !remote.confirm.Done? then Trace(Caught(remote.confirm, now), c6, []) else
    var pi := remote.confirm.value;
    if pi.status != Str("succeeded") then
      Trace(ErrorResponse(PaymentFailed, 400,
              Some([E("payment_intent_id", pi.id), E("status", pi.status)]), now), c6, [])
    else if !Truthy(pi.latestCharge) then
      Trace(ErrorResponse(NoCharge, 400, None, now), c6, [])
    else
    var chargeId := pi.latestCharge;
    var c7 := c6 + [CreateTransfer(cents, "brl", accountId, chargeId, orderRef, pi.id, TransferKeyPrefix)];
    if !remote.transfer.Done? then Trace(Caught(remote.transfer, now), c7, []) else
    var tr := remote.transfer.value;
    Trace(SuccessResponse(SuccessData(customerId, pi.id, chargeId, tr, cents, accountId), now), c7,
          [IntentRecord(pi.id, cents, accountId, amountBrl, now),
           ChargeRecord(chargeId, cents, accountId, now),
           TransferRecord(tr.id, cents, accountId, amountBrl, chargeId, now)])
  }

  /** The values handed to the store, one per record, in order. */
  function Records(audit: seq<AuditRecord>): (vs: seq<Value>)
    ensures |vs| == |audit|
    ensures forall i :: 0 <= i < |audit| ==> vs[i] == ToValue(audit[i])
  {
    seq(|audit|, i requires 0 <= i < |audit| => ToValue(audit[i]))
  }

  /** How one SDK call ended. */
  datatype Ending = Returned | RaisedApi(message: string) | RaisedOther(message: string)

  function EndingOf<T>(o: Outcome<T>): Ending {
    match o
    case Done(_) => Returned
    case ApiError(m) => RaisedApi(m)
    case Failed(m) => RaisedOther(m)
  }

  /** How the `k`-th SDK call of the script (counting from 0) ends. */
  function StepEnding(remote: Remote, k: nat): Ending {
    if k == 0 then EndingOf(remote.customer)
    else if k == 1 then EndingOf(remote.intent)
    else if k == 2 then EndingOf(remote.paymentMethod)
    else if k == 3 then EndingOf(remote.attach)
    else if k == 4 then EndingOf(remote.update)
    else if k == 5 then EndingOf(remote.confirm)
    else if k == 6 then EndingOf(remote.transfer)
    else Returned
  }

  /** Where a call sits in the script. */
  function Position(c: Call): nat {
    match c
    case CreateCustomer => 0
    case CreatePaymentIntent(_, _, _, _, _, _) => 1
    case CreatePaymentMethod => 2
    case AttachPaymentMethod(_, _) => 3
    case UpdatePaymentIntent(_, _) => 4
    case ConfirmPaymentIntent(_) => 5
    case CreateTransfer(_, _, _, _, _, _, _) => 6
  }

  /** Every SDK call returns and the confirmed intent carries a charge. */
  predicate Completes(payload: Value, cents: int, remote: Remote) {
    && Accepted(payload, cents)
    && remote.customer.Done? && remote.intent.Done? && remote.paymentMethod.Done?
    && remote.attach.Done? && remote.update.Done? && remote.confirm.Done? && remote.transfer.Done?
    && remote.confirm.value.status == Str("succeeded")
    && Truthy(remote.confirm.value.latestCharge)
  }

  /** Validation runs before anything else: a rejected request reaches the
      provider not at all and writes no audit record. */
  lemma ValidationFirst(payload: Value, cents: int, remote: Remote, now: string)
    ensures var t := Plan(payload, cents, remote, now);
      && (t.calls == [] <==> !Accepted(payload, cents))
      && (!Accepted(payload, cents) ==> t.audit == [])
      && (!Truthy(Get(payload, "account_id")) || !Truthy(Get(payload, "amount_brl")) ==>
            t.reply == ErrorResponse(MissingFields, 400, None, now))
      && (Truthy(Get(payload, "account_id")) && Truthy(Get(payload, "amount_brl")) && cents < MinimumCents ==>
            t.reply == ErrorResponse(BelowMinimum, 400, None, now))
  {
  }

  /** Positions 0, 1, 2, ... in order. */
  predicate InScriptOrder(calls: seq<Call>) {
    forall i :: 0 <= i < |calls| ==> Position(calls[i]) == i
  }

  /** The call kinds at positions 0 to 6 are the script's, in order. */
  predicate KindsInOrder(calls: seq<Call>) {
    && |calls| <= 7
    && (|calls| > 0 ==> calls[0].CreateCustomer?)
    && (|calls| > 1 ==> calls[1].CreatePaymentIntent?)
    && (|calls| > 2 ==> calls[2].CreatePaymentMethod?)
    && (|calls| > 3 ==> calls[3].AttachPaymentMethod?)
    && (|calls| > 4 ==> calls[4].UpdatePaymentIntent?)
    && (|calls| > 5 ==> calls[5].ConfirmPaymentIntent?)
    && (|calls| > 6 ==> calls[6].CreateTransfer?)
  }

  lemma KindsGiveOrder(calls: seq<Call>)
    requires KindsInOrder(calls)
    ensures InScriptOrder(calls)
  {
  }

  /** Every call but the last one returned. */
  predicate StoppedAtFirstRaise(remote: Remote, n: nat) {
    && (n > 1 ==> remote.customer.Done?)
    && (n > 2 ==> remote.intent.Done?)
    && (n > 3 ==> remote.paymentMethod.Done?)
    && (n > 4 ==> remote.attach.Done?)
    && (n > 5 ==> remote.update.Done?)
    && (n > 6 ==> remote.confirm.Done?)
  }

  lemma StoppedGivesReturned(remote: Remote, n: nat)
    requires n <= 7 && StoppedAtFirstRaise(remote, n)
    ensures forall i :: 0 <= i < n - 1 ==> StepEnding(remote, i).Returned?
  {
  }

  /** The script after validation issues its calls in order and stops at
      the first one that raises. */
  lemma ChargeCallsInOrder(accountId: Value, amountBrl: Value, orderRef: Value, cents: int,
                           remote: Remote, now: string)
    ensures var calls := Charge(accountId, amountBrl, orderRef, cents, remote, now).calls;
      KindsInOrder(calls) && StoppedAtFirstRaise(remote, |calls|)
  {
  }

  /** The calls follow the script's order, and the run stops at the first
      call that raises: every call but the last one returned. */
  lemma CallsFollowScript(payload: Value, cents: int, remote: Remote, now: string)
    ensures var t := Plan(payload, cents, remote, now);
      && |t.calls| <= 7
      && InScriptOrder(t.calls)
      && (forall i :: 0 <= i < |t.calls| - 1 ==> StepEnding(remote, i).Returned?)
  {
    var t := Plan(payload, cents, remote, now);
    if Accepted(payload, cents) {
      ChargeCallsInOrder(Get(payload, "account_id"), Get(payload, "amount_brl"), Get(payload, "order_ref"),
                         cents, remote, now);
    }
    KindsGiveOrder(t.calls);
    StoppedGivesReturned(remote, |t.calls|);
  }

  /** Every answer is one envelope. A 500 comes exactly from a call that
      raised something other than the provider's own error; a provider error
      answers 400 with its message. */
  lemma ErrorsClassified(payload: Value, cents: int, remote: Remote, now: string)
    ensures var t := Plan(payload, cents, remote, now);
      && (IsErrorEnvelope(t.reply) || IsSuccessEnvelope(t.reply))
      && (t.reply.code == 500 <==> t.calls != [] && StepEnding(remote, |t.calls| - 1).RaisedOther?)
      && (t.calls != [] && StepEnding(remote, |t.calls| - 1).RaisedApi? ==>
            t.reply == ErrorResponse(ProviderError, 400,
                         Some([E("message", Str(StepEnding(remote, |t.calls| - 1).message))]), now))
      && (t.calls != [] && StepEnding(remote, |t.calls| - 1).RaisedOther? ==>
            t.reply == ErrorResponse(InternalError, 500,
                         Some([E("message", Str(StepEnding(remote, |t.calls| - 1).message))]), now))
  {
    if !Accepted(payload, cents) {
    } else if !remote.customer.Done? {
    } else if !remote.intent.Done? {
    } else if !remote.paymentMethod.Done? {
    } else if !remote.attach.Done? {
    } else if !remote.update.Done? {
    } else if !remote.confirm.Done? {
    } else if remote.confirm.value.status != Str("succeeded") {
    } else if !Truthy(remote.confirm.value.latestCharge) {
    } else if !remote.transfer.Done? {
    }
  }

  /** The run succeeds exactly when every call returns and the payment went
      through with a charge; the audit trail is written exactly then. */
  lemma SuccessExactly(payload: Value, cents: int, remote: Remote, now: string)
    ensures var t := Plan(payload, cents, remote, now);
      && (IsSuccessEnvelope(t.reply) <==> Completes(payload, cents, remote))
      && (t.audit != [] <==> IsSuccessEnvelope(t.reply))
  {
    if !Accepted(payload, cents) {
    } else if !remote.customer.Done? {
    } else if !remote.intent.Done? {
    } else if !remote.paymentMethod.Done? {
    } else if !remote.attach.Done? {
    } else if !remote.update.Done? {
    } else if !remote.confirm.Done? {
    } else if remote.confirm.value.status != Str("succeeded") {
    } else if !Truthy(remote.confirm.value.latestCharge) {
    } else if !remote.transfer.Done? {
    }
  }

  /** A payment that did not succeed, or succeeded without a charge, stops
      the run after the confirmation, before any transfer. */
  lemma NoTransferWithoutCharge(payload: Value, cents: int, remote: Remote, now: string)
    requires Accepted(payload, cents)
    requires remote.customer.Done? && remote.intent.Done? && remote.paymentMethod.Done?
    requires remote.attach.Done? && remote.update.Done? && remote.confirm.Done?
    ensures var t := Plan(payload, cents, remote, now); var pi := remote.confirm.value;
      && (pi.status != Str("succeeded") ==>
            t.reply == ErrorResponse(PaymentFailed, 400,
                         Some([E("payment_intent_id", pi.id), E("status", pi.status)]), now))
      && (pi.status == Str("succeeded") && !Truthy(pi.latestCharge) ==>
            t.reply == ErrorResponse(NoCharge, 400, None, now))
      && (pi.status != Str("succeeded") || !Truthy(pi.latestCharge) ==> |t.calls| == 6 && t.audit == [])
  {
  }

  /** A completed run charges and transfers the same amount in cents, sends
      the transfer to the requested account out of the intent's charge, and
      logs three records in order: intent, charge, transfer. */
  lemma SuccessTrail(payload: Value, cents: int, remote: Remote, now: string)
    requires Completes(payload, cents, remote)
    ensures var t := Plan(payload, cents, remote, now); var pi := remote.confirm.value;
      var account := Get(payload, "account_id");
      && |t.calls| == 7 && |t.audit| == 3
      && t.calls[1].CreatePaymentIntent? && t.calls[1].amount == cents && t.calls[1].currency == "brl"
      && t.calls[1].connectedAccount == account && t.calls[1].keyPrefix == IntentKeyPrefix
      && t.calls[6].CreateTransfer? && t.calls[6].amount == cents && t.calls[6].currency == "brl"
      && t.calls[6].destination == account && t.calls[6].sourceTransaction == pi.latestCharge
      && t.calls[6].keyPrefix == TransferKeyPrefix
      && t.audit[0].kind == "payment_intent" && t.audit[0].status == "simulated" && t.audit[0].id == pi.id
      && t.audit[1].kind == "charge" && t.audit[1].status == "succeeded" && t.audit[1].id == pi.latestCharge
      && t.audit[2].kind == "transfer" && t.audit[2].status == "created"
      && t.audit[2].id == remote.transfer.value.id
      && (forall r :: r in t.audit ==>
            && r.amount == cents && r.currency == "brl" && r.connectedAccount == account
            && r.applicationFee == Null && r.webhookType == Null && r.createdAt == now)
  {
    CompletedCalls(payload, cents, remote, now);
    CompletedAudit(payload, cents, remote, now);
  }

  /** The payment intent and the transfer among the seven calls of a
      completed run. */
  lemma CompletedCalls(payload: Value, cents: int, remote: Remote, now: string)
    requires Completes(payload, cents, remote)
    ensures var calls, orderRef, pi := Plan(payload, cents, remote, now).calls, Get(payload, "order_ref"), remote.confirm.value;
      && |calls| == 7
      && calls[1] == CreatePaymentIntent(cents, "brl", remote.customer.value,
                       if orderRef == Null then Str("") else orderRef, Get(payload, "account_id"), IntentKeyPrefix)
      && calls[6] == CreateTransfer(cents, "brl", Get(payload, "account_id"), pi.latestCharge, orderRef, pi.id,
                       TransferKeyPrefix)
  {
    var account, amountBrl, orderRef := Get(payload, "account_id"), Get(payload, "amount_brl"), Get(payload, "order_ref");
    assert Plan(payload, cents, remote, now) == Charge(account, amountBrl, orderRef, cents, remote, now);
    ChargeCompletedCalls(account, amountBrl, orderRef, cents, remote, now);
  }

  /** The same, for the script after validation. */
  lemma ChargeCompletedCalls(accountId: Value, amountBrl: Value, orderRef: Value, cents: int,
                             remote: Remote, now: string)
    requires remote.customer.Done? && remote.intent.Done? && remote.paymentMethod.Done?
    requires remote.attach.Done? && remote.update.Done? && remote.confirm.Done? && remote.transfer.Done?
    requires remote.confirm.value.status == Str("succeeded") && Truthy(remote.confirm.value.latestCharge)
    ensures var calls, pi := Charge(accountId, amountBrl, orderRef, cents, remote, now).calls, remote.confirm.value;
      && |calls| == 7
      && calls[1] == CreatePaymentIntent(cents, "brl", remote.customer.value,
                       if orderRef == Null then Str("") else orderRef, accountId, IntentKeyPrefix)
      && calls[6] == CreateTransfer(cents, "brl", accountId, pi.latestCharge, orderRef, pi.id, TransferKeyPrefix)
  {
  }

  /** The three records of a completed run. */
  lemma CompletedAudit(payload: Value, cents: int, remote: Remote, now: string)
    requires Completes(payload, cents, remote)
    ensures var account, amountBrl, pi := Get(payload, "account_id"), Get(payload, "amount_brl"), remote.confirm.value;
      Plan(payload, cents, remote, now).audit == [IntentRecord(pi.id, cents, account, amountBrl, now),
        ChargeRecord(pi.latestCharge, cents, account, now),
        TransferRecord(remote.transfer.value.id, cents, account, amountBrl, pi.latestCharge, now)]
  {
    assert Plan(payload, cents, remote, now)
        == Charge(Get(payload, "account_id"), Get(payload, "amount_brl"), Get(payload, "order_ref"), cents, remote, now);
  }

  /** Whatever a record carries, the request and response written to the
      audit trail hold no secret key, publishable key or webhook secret. */
  lemma AuditRedacted(r: AuditRecord)
    ensures var es := ToValue(r).entries;
      && Find(es, StrKey("request")).Some? && Clean(Find(es, StrKey("request")).value)
      && Find(es, StrKey("response")).Some? && Clean(Find(es, StrKey("response")).value)
  {
    RecordLayout(r);
    FoundAt(ToValue(r).entries, 7);
    RedactLeavesNoSecret(r.request);
    RedactLeavesNoSecret(r.response);
  }

  /** Where the redacted request and response sit in the stored record. */
  lemma RecordLayout(r: AuditRecord)
    ensures var es := ToValue(r).entries;
      && |es| == 11
      && es[7] == E("request", Arr(RedactArray(r.request)))
      && es[8] == E("response", Arr(RedactArray(r.response)))
      && forall i :: 0 <= i < 7 ==> es[i].key != StrKey("request") && es[i].key != StrKey("response")
  {
  }

  /** Two entries whose keys no earlier entry has are found by key. */
  lemma FoundAt(es: seq<Entry>, n: nat)
    requires n + 2 <= |es| && es[n].key != es[n + 1].key
    requires forall i :: 0 <= i < n ==> es[i].key != es[n].key && es[i].key != es[n + 1].key
    ensures Find(es, es[n].key) == Some(es[n].val)
    ensures Find(es, es[n + 1].key) == Some(es[n + 1].val)
  {
    var front, back := es[..n], es[n..];
    assert es == front + back;
    FindAppend(front, back, es[n].key);
    FindAppend(front, back, es[n + 1].key);
    assert back[1..][0] == es[n + 1];
  }

  /** A run that does not succeed leaves the store as it was; a successful
      run whose appends all get the lock adds its three records at the end. */
  lemma StoreAfterRun(d: Doc, payload: Value, cents: int, remote: Remote, access: nat -> FileAccess, now: string)
    ensures var t := Plan(payload, cents, remote, now);
      && (!IsSuccessEnvelope(t.reply) ==> AppendAll(d, Records(t.audit), access, 0) == d)
      && ((forall j :: 0 <= j < 3 ==> access(j).gotHandle && access(j).gotLock) ==>
            Values(Current(AppendAll(d, Records(t.audit), access, 0))) == Values(Current(d)) + Records(t.audit))
  {
    var t := Plan(payload, cents, remote, now);
    SuccessExactly(payload, cents, remote, now);
    if IsSuccessEnvelope(t.reply) {
      if forall j :: 0 <= j < 3 ==> access(j).gotHandle && access(j).gotLock {
        AppendAllValues(d, Records(t.audit), access, 0);
      }
    } else {
      assert Records(t.audit) == [];
      assert Values(Current(d)) + [] == Values(Current(d));
    }
  }

  /** Hands the three records of a completed run to the store, in order. */
  method AppendRecords(store: Store, records: seq<AuditRecord>, access: nat -> FileAccess)
    requires |records| == 3
    modifies store
    ensures store.doc == AppendAll(old(store.doc), Records(records), access, 0)
  {
    var vs := Records(records);
    ghost var d0 := store.doc;
    store.Append(vs[0], access(0));
    ghost var d1 := store.doc;
    store.Append(vs[1], access(1));
    ghost var d2 := store.doc;
    store.Append(vs[2], access(2));
    assert vs[1..][1..] == vs[2..] && vs[2..][1..] == [];
    assert AppendAll(store.doc, [], access, 3) == store.doc;
    assert AppendAll(d2, vs[2..], access, 2) == store.doc;
    assert AppendAll(d1, vs[1..], access, 1) == store.doc;
    assert AppendAll(d0, vs, access, 0) == store.doc;
  }

  /** Runs the script against the audit store. `access(k)` says whether the
      `k`-th append got a file handle and the lock. */
  method SimulateTransfer(store: Store, payload: Value, cents: int, remote: Remote,
                          access: nat -> FileAccess, now: string)
    returns (reply: Reply, calls: seq<Call>)
    modifies store
    ensures reply == Plan(payload, cents, remote, now).reply
    ensures calls == Plan(payload, cents, remote, now).calls
    ensures store.doc == AppendAll(old(store.doc), Records(Plan(payload, cents, remote, now).audit), access, 0)
  {
    var accountId := Get(payload, "account_id");
    var amountBrl := Get(payload, "amount_brl");
    if !Truthy(accountId) || !Truthy(amountBrl) {
      reply := ErrorResponse(MissingFields, 400, None, now);
      calls := [];
      return;
    }
    if cents < MinimumCents {
      reply := ErrorResponse(BelowMinimum, 400, None, now);
      calls := [];
      return;
    }
    reply, calls := ChargeAndTransfer(store, accountId, amountBrl, Get(payload, "order_ref"), cents, remote, access, now);
  }

  /** The `try` body after validation: the SDK calls one after another, then
      the three appends and the success envelope. */
  method ChargeAndTransfer(store: Store, accountId: Value, amountBrl: Value, orderRef: Value, cents: int,
                           remote: Remote, access: nat -> FileAccess, now: string)
    returns (reply: Reply, calls: seq<Call>)
    modifies store
    ensures reply == Charge(accountId, amountBrl, orderRef, cents, remote, now).reply
    ensures calls == Charge(accountId, amountBrl, orderRef, cents, remote, now).calls
    ensures store.doc == AppendAll(old(store.doc), Records(Charge(accountId, amountBrl, orderRef, cents, remote, now).audit), access, 0)
  {
    calls := [CreateCustomer];
    if !remote.customer.Done? {
      reply := Caught(remote.customer, now);
      return;
    }
    var customerId := remote.customer.value;

    calls := calls + [CreatePaymentIntent(cents, "brl", customerId,
                        if orderRef == Null then Str("") else orderRef, accountId, IntentKeyPrefix)];
    if !remote.intent.Done? {
      reply := Caught(remote.intent, now);
      return;
    }
    var intentId := remote.intent.value;

    calls := calls + [CreatePaymentMethod];
    if !remote.paymentMethod.Done? {
      reply := Caught(remote.paymentMethod, now);
      return;
    }
    var methodId := remote.paymentMethod.value;

    calls := calls + [AttachPaymentMethod(methodId, customerId)];
    if !remote.attach.Done? {
      reply := Caught(remote.attach, now);
      return;
    }

    calls := calls + [UpdatePaymentIntent(intentId, methodId)];
    if !remote.update.Done? {
      reply := Caught(remote.update, now);
      return;
    }
    intentId := remote.update.value;

    calls := calls + [ConfirmPaymentIntent(intentId)];
    if !remote.confirm.Done? {
      reply := Caught(remote.confirm, now);
      return;
    }
    var pi := remote.confirm.value;
    if pi.status != Str("succeeded") {
      reply := ErrorResponse(PaymentFailed, 400,
                 Some([E("payment_intent_id", pi.id), E("status", pi.status)]), now);
      return;
    }
    var chargeId := pi.latestCharge;
    if !Truthy(chargeId) {
      reply := ErrorResponse(NoCharge, 400, None, now);
      return;
    }

    calls := calls + [CreateTransfer(cents, "brl", accountId, chargeId, orderRef, pi.id, TransferKeyPrefix)];
    if !remote.transfer.Done? {
      reply := Caught(remote.transfer, now);
      return;
    }
    var tr := remote.transfer.value;

    AppendRecords(store, [IntentRecord(pi.id, cents, accountId, amountBrl, now),
                          ChargeRecord(chargeId, cents, accountId, now),
                          TransferRecord(tr.id, cents, accountId, amountBrl, chargeId, now)], access);
    reply := SuccessResponse(SuccessData(customerId, pi.id, chargeId, tr, cents, accountId), now);
  }
}
