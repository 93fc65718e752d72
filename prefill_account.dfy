/** `prefill_account.php`: send what the caller knows about an existing
    connected account to the provider as an account update, so that the
    embedded onboarding asks for less. Unlike account creation, the blocks do
    not depend on `business_type` and the individual's email has no
    fallback. */
module PrefillAccount {
  import opened Php
  import opened Sdk
  import opened Http

  const AccountIdRequired := "account_id é obrigatório"

  const ProfileFields: seq<string> := ["product_description", "url", "mcc"]
  const IndividualFields: seq<string> := ["first_name", "last_name", "email", "id_number", "dob", "address"]
  const CompanyFields: seq<string> := ["name", "tax_id", "address"]

  /** The keys of the three blocks. */
  const SectionKeys: seq<Key> := [StrKey("business_profile"), StrKey("individual"), StrKey("company")]

  lemma KeysDistinct()
    ensures SectionKeys[0] != SectionKeys[1] && SectionKeys[0] != SectionKeys[2]
    ensures SectionKeys[1] != SectionKeys[2]
  {
    assert |SectionKeys[0].s| == 16 && |SectionKeys[1].s| == 10 && |SectionKeys[2].s| == 7;
  }

  lemma BlockKeys(p: Value)
    ensures |Blocks(p)| == |SectionKeys|
    ensures Blocks(p)[0].key == SectionKeys[0] && Blocks(p)[1].key == SectionKeys[1]
    ensures Blocks(p)[2].key == SectionKeys[2]
  {
  }

  /** The guards of the three `if (!empty($p[...]))` that add a block. */
  function Guards(p: Value): seq<bool> {
    [!IsEmpty(p, "business_profile"), !IsEmpty(p, "individual"), !IsEmpty(p, "company")]
  }

  /** Each block is `array_filter` over the listed fields of the input section. */
  function Blocks(p: Value): seq<Entry> {
    [Block(p, "business_profile", ProfileFields), Block(p, "individual", IndividualFields),
     Block(p, "company", CompanyFields)]
  }

  function Block(p: Value, section: string, fields: seq<string>): Entry {
    E(section, Arr(ArrayFilter(Pick(Get(p, section), fields))))
  }

  /** The update parameters: exactly the guarded blocks, in order, and
      nothing else. */
  predicate DescribesUpdate(update: seq<Entry>, p: Value) {
    Laid(update, [], Guards(p), Blocks(p))
  }

  /** Builds `$update` the way the endpoint does: from `[]`, one assignment
      per non-empty input section. */
  method BuildUpdate(p: Value) returns (update: seq<Entry>)
    ensures DescribesUpdate(update, p)
  {
    update := AssignSections(Guards(p), Blocks(p));
    AssignedDescribes(p);
  }

  /** The endpoint's three guarded assignments on an empty update, in
      order: business_profile, individual, company. */
  method AssignSections(guards: seq<bool>, blocks: seq<Entry>) returns (update: seq<Entry>)
    requires |guards| == 3 && |blocks| == 3
    ensures update == Assigned([], guards, blocks)
  {
    update := [];
    Listed3(guards);
    Listed3(blocks);
    ghost var gs: seq<bool>, bs: seq<Entry> := [], [];
    if guards[0] {  // business_profile
      update := Put(update, blocks[0]);
    }
    AssignedSnoc([], gs, bs, guards[0], blocks[0]);
    gs, bs := gs + [guards[0]], bs + [blocks[0]];
    assert update == Assigned([], gs, bs);
    if guards[1] {  // individual
      update := Put(update, blocks[1]);
    }
    AssignedSnoc([], gs, bs, guards[1], blocks[1]);
    gs, bs := gs + [guards[1]], bs + [blocks[1]];
    assert update == Assigned([], gs, bs);
    if guards[2] {  // company
      update := Put(update, blocks[2]);
    }
    AssignedSnoc([], gs, bs, guards[2], blocks[2]);
    gs, bs := gs + [guards[2]], bs + [blocks[2]];
    assert update == Assigned([], gs, bs);
  }

  /** The three assignments on `[]` give parameters that describe the input. */
  lemma AssignedDescribes(p: Value)
    ensures DescribesUpdate(Assigned([], Guards(p), Blocks(p)), p)
  {
    var b := Blocks(p);
    assert DistinctKeys(b) by {
      BlockKeys(p);
      KeysDistinct();
      Distinct3(b);
    }
    AssignedLaid([], Guards(p), b);
  }

  /** The blocks of parameters that describe the input, looked up by key:
      each is there exactly when its input section is non-empty. */
  lemma UpdateBlocks(update: seq<Entry>, p: Value)
    requires DescribesUpdate(update, p)
    ensures var b := Blocks(p);
      && Find(update, StrKey("business_profile")) == (if IsEmpty(p, "business_profile") then None else Some(b[0].val))
      && Find(update, StrKey("individual")) == (if IsEmpty(p, "individual") then None else Some(b[1].val))
      && Find(update, StrKey("company")) == (if IsEmpty(p, "company") then None else Some(b[2].val))
  {
    BlockKeys(p);
  }

  /** Nothing but the three blocks is sent. */
  lemma UpdateSize(update: seq<Entry>, p: Value)
    requires DescribesUpdate(update, p)
    ensures |update| <= 3
  {
    assert update == update[0..];
    ChosenLength(Guards(p), Blocks(p));
  }

  /** The individual's fields reach the provider exactly when the caller
      gave them a truthy value; an empty individual email stays out rather
      than falling back to another email. */
  lemma IndividualFieldsForwarded(update: seq<Entry>, p: Value, f: string)
    requires DescribesUpdate(update, p)
    requires !IsEmpty(p, "individual")
    ensures var block := Find(update, StrKey("individual"));
      && block.Some? && block.value.Arr?
      && Find(block.value.entries, StrKey(f))
           == if f in IndividualFields && Truthy(Get(Get(p, "individual"), f))
              then Some(Get(Get(p, "individual"), f)) else None
  {
    UpdateBlocks(update, p);
    PickFiltered(Get(p, "individual"), IndividualFields, f);
  }

  /** The one SDK call: `Account::update($accountId, $update)`. */
  datatype UpdateCall = UpdateAccount(account: Value, params: seq<Entry>)

  /** The endpoint. `p` is the decoded body and `remote` what the provider
      returns or raises for the update. */
  method Handle(p: Value, remote: Outcome<Value>) returns (reply: Reply, calls: seq<UpdateCall>)
    ensures IsEmpty(p, "account_id") <==> calls == []
    ensures IsEmpty(p, "account_id") ==> reply == PlainError(400, AccountIdRequired)
    ensures calls != [] ==>
              && |calls| == 1 && calls[0].account == Get(p, "account_id")
              && DescribesUpdate(calls[0].params, p)
    ensures calls != [] && remote.Done? ==>
              reply == Json(200, [E("success", Bool(true)), E("account", remote.value)])
    ensures calls != [] && !remote.Done? ==>
              reply == PlainError(if remote.ApiError? then 400 else 500, remote.message)
  {
    var accountId := Get(p, "account_id");
    if !Truthy(accountId) {
      reply, calls := PlainError(400, AccountIdRequired), [];
      return;
    }
    var update := BuildUpdate(p);
    calls := [UpdateAccount(accountId, update)];
    match remote
    case Done(acc) =>
      reply := Json(200, [E("success", Bool(true)), E("account", acc)]);
    case ApiError(message) =>
      reply := PlainError(400, message);
    case Failed(message) =>
      reply := PlainError(500, message);
  }
}
