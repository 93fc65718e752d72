/** `create_connected_account_prefilled.php`: create a new Express connected
    account with whatever the caller already knows about it, then open an
    account session for embedded onboarding. The file has no `strict_types`
    declaration, so scalar arguments to `strtoupper` are coerced. */
module CreateAccount {
  import opened Php
  import opened Sdk
  import opened Http

  const MissingKey := "STRIPE_SECRET_KEY não definido"
  const AccountIdRefused := "Não envie account_id aqui. Este endpoint só cria novas contas."
  const EmailRequired := "email é obrigatório"
  const StrtoupperArray := "strtoupper(): Argument #1 ($string) must be of type string, array given"

  const ProfileFields: seq<string> := ["product_description", "url"]
  const CompanyFields: seq<string> := ["name", "tax_id", "address"]
  const ScheduleFields: seq<string> := ["interval", "weekly_anchor", "monthly_anchor", "delay_days"]

  /** `getenv('STRIPE_SECRET_KEY')` is usable: set, and neither "" nor "0". */
  predicate KeySet(key: Option<string>) {
    key.Some? && Truthy(Str(key.value))
  }

  /** PHP's coercion of a scalar to a `string` parameter in weak mode. An
      array is refused (`None`): `strtoupper` raises a `TypeError`. */
  function StringArg(v: Value): (r: Option<string>)
    ensures r.None? <==> v.Arr?
    ensures v.Str? ==> r == Some(v.s)
  {
    match v
    case Null => Some("")
    case Bool(b) => Some(if b then "1" else "")
    case Int(i) => Some(DecimalString(i))
    case Str(s) => Some(s)
    case Arr(_) => None
  }

  /** `strtoupper($p['country'] ?? 'BR')`, or `None` when it raises. */
  function Country(p: Value): (r: Option<string>)
    ensures Get(p, "country") == Null ==> r == Some("BR")
    ensures Get(p, "country").Arr? <==> r.None?
    ensures Get(p, "country").Str? ==> r == Some(Upper(Get(p, "country").s))
    ensures r.Some? ==> forall i :: 0 <= i < |r.value| ==> !('a' <= r.value[i] <= 'z')
  {
    match StringArg(GetOr(p, "country", Str("BR")))
    case None => None
    case Some(s) => UpperFixes("BR"); Some(Upper(s))
  }

  /** `$p['business_type'] ?? 'individual'`. */
  function BusinessType(p: Value): Value {
    GetOr(p, "business_type", Str("individual"))
  }

  /** The `individual` literal before filtering: the contact email falls
      back to the account's email. */
  function IndividualEntries(ind: Value, email: Value): seq<Entry> {
    [E("first_name", Get(ind, "first_name")), E("last_name", Get(ind, "last_name")),
     E("email", GetOr(ind, "email", email)), E("id_number", Get(ind, "id_number")),
     E("dob", Get(ind, "dob")), E("address", Get(ind, "address"))]
  }

  /** The six entries every creation request starts with. */
  function BasePayload(country: string, email: Value, businessType: Value): seq<Entry> {
    [E("type", Str("express")),
     E("country", Str(country)),
     E("email", email),
     E("capabilities", Arr([E("card_payments", Arr([E("requested", Bool(true))])),
                            E("transfers", Arr([E("requested", Bool(true))]))])),
     E("business_type", businessType),
     E("metadata", Arr([E("source", Str("stripe-php-poc"))]))]
  }

  /** The optional blocks: each is `array_filter` over the listed fields of
      the matching input section; the payout schedule nests under
      `settings.payouts.schedule`. */
  function ProfileSection(p: Value): Entry {
    E("business_profile", Arr(ArrayFilter(Pick(Get(p, "business_profile"), ProfileFields))))
  }

  function IndividualSection(p: Value, email: Value): Entry {
    E("individual", Arr(ArrayFilter(IndividualEntries(Get(p, "individual"), email))))
  }

  function CompanySection(p: Value): Entry {
    E("company", Arr(ArrayFilter(Pick(Get(p, "company"), CompanyFields))))
  }

  function SettingsSection(p: Value): Entry {
    E("settings", Arr([E("payouts", Arr([E("schedule",
      Arr(ArrayFilter(Pick(Get(p, "payout_schedule"), ScheduleFields))))]))]))
  }

  /** The guards of the four `if`s that add an optional block: a non-empty
      input section, and for the identity blocks the matching
      `business_type`. */
  function Guards(p: Value): seq<bool> {
    var bt := BusinessType(p);
    [!IsEmpty(p, "business_profile"),
     bt == Str("individual") && !IsEmpty(p, "individual"),
     bt == Str("company") && !IsEmpty(p, "company"),
     !IsEmpty(p, "payout_schedule")]
  }

  /** The four optional blocks, in the order the endpoint assigns them. */
  function Blocks(p: Value, email: Value): seq<Entry> {
    [ProfileSection(p), IndividualSection(p, email), CompanySection(p), SettingsSection(p)]
  }

  /** What the creation request carries: the six base entries, then exactly
      the guarded blocks. */
  predicate DescribesPayload(payload: seq<Entry>, p: Value, email: Value, country: string) {
    Laid(payload, BasePayload(country, email, BusinessType(p)), Guards(p), Blocks(p, email))
  }

  lemma BaseLookups(country: string, email: Value, businessType: Value)
    ensures DistinctKeys(BasePayload(country, email, businessType))
    ensures forall k :: k in SectionKeys ==> Find(BasePayload(country, email, businessType), k).None?
  {
  }

  /** The keys of the optional blocks. */
  const SectionKeys: seq<Key> := [StrKey("business_profile"), StrKey("individual"), StrKey("company"), StrKey("settings")]

  /** Builds the creation request the way the endpoint does: the base array,
      then one assignment per optional block. */
  method BuildPayload(p: Value, email: Value, country: string) returns (payload: seq<Entry>)
    ensures DescribesPayload(payload, p, email, country)
  {
    payload := AssignSections(BasePayload(country, email, BusinessType(p)), Guards(p), Blocks(p, email));
    AssignedDescribes(p, email, country);
  }

  /** The endpoint's four guarded assignments, in order: business_profile,
      individual, company, settings. */
  method AssignSections(base: seq<Entry>, guards: seq<bool>, blocks: seq<Entry>) returns (payload: seq<Entry>)
    requires |guards| == 4 && |blocks| == 4
    ensures payload == Assigned(base, guards, blocks)
  {
    payload := base;
    Listed4(guards);
    Listed4(blocks);
    ghost var gs: seq<bool>, bs: seq<Entry> := [], [];
    if guards[0] {  // business_profile
      payload := Put(payload, blocks[0]);
    }
    AssignedSnoc(base, gs, bs, guards[0], blocks[0]);
    gs, bs := gs + [guards[0]], bs + [blocks[0]];
    assert payload == Assigned(base, gs, bs);
    if guards[1] {  // individual
      payload := Put(payload, blocks[1]);
    }
    AssignedSnoc(base, gs, bs, guards[1], blocks[1]);
    gs, bs := gs + [guards[1]], bs + [blocks[1]];
    assert payload == Assigned(base, gs, bs);
    if guards[2] {  // company
      payload := Put(payload, blocks[2]);
    }
    AssignedSnoc(base, gs, bs, guards[2], blocks[2]);
    gs, bs := gs + [guards[2]], bs + [blocks[2]];
    assert payload == Assigned(base, gs, bs);
    if guards[3] {  // settings
      payload := Put(payload, blocks[3]);
    }
    AssignedSnoc(base, gs, bs, guards[3], blocks[3]);
    gs, bs := gs + [guards[3]], bs + [blocks[3]];
    assert payload == Assigned(base, gs, bs);
  }

  /** The endpoint's four assignments on the base array give a request that
      describes the input. */
  lemma AssignedDescribes(p: Value, email: Value, country: string)
    ensures DescribesPayload(Assigned(BasePayload(country, email, BusinessType(p)), Guards(p), Blocks(p, email)),
                             p, email, country)
  {
    var front, b := BasePayload(country, email, BusinessType(p)), Blocks(p, email);
    assert DistinctKeys(front) && DistinctKeys(b) && forall j :: 0 <= j < |b| ==> Find(front, b[j].key).None? by {
      BaseLookups(country, email, BusinessType(p));
      BlocksFit(p, email, country);
    }
    AssignedLaid(front, Guards(p), b);
  }

  /** The blocks go under distinct keys that no base entry uses. */
  lemma BlocksFit(p: Value, email: Value, country: string)
    ensures var b := Blocks(p, email);
      && DistinctKeys(b)
      && forall j :: 0 <= j < |b| ==> Find(BasePayload(country, email, BusinessType(p)), b[j].key).None?
  {
    var b := Blocks(p, email);
    assert forall j :: 0 <= j < |b| ==> b[j].key == SectionKeys[j];
    BaseLookups(country, email, BusinessType(p));
  }

  /** The four blocks of a request that describes the input, looked up by
      key. */
  lemma PayloadBlocks(payload: seq<Entry>, p: Value, email: Value, country: string)
    requires DescribesPayload(payload, p, email, country)
    ensures var g := Guards(p);
      && Find(payload, StrKey("business_profile")) == (if g[0] then Some(ProfileSection(p).val) else None)
      && Find(payload, StrKey("individual")) == (if g[1] then Some(IndividualSection(p, email).val) else None)
      && Find(payload, StrKey("company")) == (if g[2] then Some(CompanySection(p).val) else None)
      && Find(payload, StrKey("settings")) == (if g[3] then Some(SettingsSection(p).val) else None)
  {
    var b := Blocks(p, email);
    assert b[0].key == StrKey("business_profile") && b[1].key == StrKey("individual");
    assert b[2].key == StrKey("company") && b[3].key == StrKey("settings");
  }

  /** At most one of the two identity blocks is ever sent. */
  lemma OneIdentityBlock(payload: seq<Entry>, p: Value, email: Value, country: string)
    requires DescribesPayload(payload, p, email, country)
    ensures !(HasKey(payload, "individual") && HasKey(payload, "company"))
  {
    PayloadBlocks(payload, p, email, country);
  }

  /** A field of a section reaches the provider exactly when the caller gave
      it a truthy value, and with that value. */
  lemma ProfileFieldsForwarded(payload: seq<Entry>, p: Value, email: Value, country: string, f: string)
    requires DescribesPayload(payload, p, email, country)
    requires !IsEmpty(p, "business_profile")
    ensures var block := Find(payload, StrKey("business_profile"));
      && block.Some? && block.value.Arr?
      && Find(block.value.entries, StrKey(f))
           == if f in ProfileFields && Truthy(Get(Get(p, "business_profile"), f))
              then Some(Get(Get(p, "business_profile"), f)) else None
  {
    PayloadBlocks(payload, p, email, country);
    PickFiltered(Get(p, "business_profile"), ProfileFields, f);
  }

  /** The individual's email: their own when the input gives one (`??` only
      skips null, so a given "" is then filtered out), the account's email
      otherwise. */
  lemma IndividualEmail(payload: seq<Entry>, p: Value, email: Value, country: string)
    requires DescribesPayload(payload, p, email, country)
    requires Guards(p)[1]
    ensures var block := Find(payload, StrKey("individual")); var x := GetOr(Get(p, "individual"), "email", email);
      && block.Some? && block.value.Arr?
      && Find(block.value.entries, StrKey("email")) == (if Truthy(x) then Some(x) else None)
      && (Get(Get(p, "individual"), "email") == Null && Truthy(email) ==> Find(block.value.entries, StrKey("email")) == Some(email))
  {
    PayloadBlocks(payload, p, email, country);
    FilteredEmail(Get(p, "individual"), email);
  }

  lemma FilteredEmail(ind: Value, email: Value)
    ensures var x := GetOr(ind, "email", email);
      Find(ArrayFilter(IndividualEntries(ind, email)), StrKey("email")) == if Truthy(x) then Some(x) else None
  {
    var es := IndividualEntries(ind, email);
    var k := StrKey("email");
    var rest1, rest2, rest3 := es[1..], es[2..], es[3..];
    assert Find(ArrayFilter(rest3), k).None? by {
      FilterKeepsAbsent(rest3, k);
    }
    assert Find(ArrayFilter(rest2), k) == if Truthy(es[2].val) then Some(es[2].val) else None by {
      assert rest2 == [es[2]] + rest3;
      FilterConsFind(es[2], rest3, k);
    }
    assert Find(ArrayFilter(rest1), k) == Find(ArrayFilter(rest2), k) by {
      assert rest1 == [es[1]] + rest2;
      FilterConsFind(es[1], rest2, k);
    }
    assert Find(ArrayFilter(es), k) == Find(ArrayFilter(rest1), k) by {
      assert es == [es[0]] + rest1;
      FilterConsFind(es[0], rest1, k);
    }
  }

  /** The two SDK calls: account creation, then the onboarding session. */
  datatype AccountCall = CreateAccount(payload: seq<Entry>) | CreateSession(account: Value)

  /** What the provider returns or raises: the created account object and
      the account session object. */
  datatype Remote = Remote(account: Outcome<Value>, session: Outcome<Value>)

  /** The endpoint. `key` is `getenv('STRIPE_SECRET_KEY')`, `p` the decoded body. */
  method Handle(key: Option<string>, p: Value, remote: Remote) returns (reply: Reply, calls: seq<AccountCall>)
    ensures !KeySet(key) ==> reply == PlainError(500, MissingKey) && calls == []
    ensures KeySet(key) && !IsEmpty(p, "account_id") ==> reply == PlainError(400, AccountIdRefused) && calls == []
    ensures KeySet(key) && IsEmpty(p, "account_id") && Country(p).None? ==>
              reply == PlainError(500, StrtoupperArray) && calls == []
    ensures KeySet(key) && IsEmpty(p, "account_id") && Country(p).Some? && IsEmpty(p, "email") ==>
              reply == PlainError(400, EmailRequired) && calls == []
    ensures calls != [] <==>
              KeySet(key) && IsEmpty(p, "account_id") && Country(p).Some? && !IsEmpty(p, "email")
    ensures calls != [] ==>
              && calls[0].CreateAccount?
              && DescribesPayload(calls[0].payload, p, Get(p, "email"), Country(p).value)
    ensures calls != [] && !remote.account.Done? ==>
              |calls| == 1 && reply == PlainError(if remote.account.ApiError? then 400 else 500, remote.account.message)
    ensures calls != [] && remote.account.Done? ==>
              |calls| == 2 && calls[1] == CreateSession(Get(remote.account.value, "id"))
    ensures calls != [] && remote.account.Done? && !remote.session.Done? ==>
              reply == PlainError(if remote.session.ApiError? then 400 else 500, remote.session.message)
    ensures calls != [] && remote.account.Done? && remote.session.Done? ==>
              reply == Json(200, [E("success", Bool(true)), E("account_id", Get(remote.account.value, "id")),
                                  E("created", remote.account.value),
                                  E("client_secret", Get(remote.session.value, "client_secret"))])
    ensures |calls| <= 2
  {
    calls := [];
    if !KeySet(key) {
      reply := PlainError(500, MissingKey);
      return;
    }
    if !IsEmpty(p, "account_id") {
      reply := PlainError(400, AccountIdRefused);
      return;
    }
    var email := Get(p, "email");
    var country := Country(p);
    if country.None? {
      reply := PlainError(500, StrtoupperArray);
      return;
    }
    if !Truthy(email) {
      reply := PlainError(400, EmailRequired);
      return;
    }
    var payload := BuildPayload(p, email, country.value);
    reply, calls := Submit(payload, remote);
  }

  /** `Account::create($payload)`, then the account session for the new
      account's id, then the success body; the first call that raises ends
      the request in the catch blocks. */
  method Submit(payload: seq<Entry>, remote: Remote) returns (reply: Reply, calls: seq<AccountCall>)
    ensures 1 <= |calls| <= 2 && calls[0] == CreateAccount(payload)
    ensures !remote.account.Done? ==>
              |calls| == 1 && reply == PlainError(if remote.account.ApiError? then 400 else 500, remote.account.message)
    ensures remote.account.Done? ==>
              |calls| == 2 && calls[1] == CreateSession(Get(remote.account.value, "id"))
    ensures remote.account.Done? && !remote.session.Done? ==>
              reply == PlainError(if remote.session.ApiError? then 400 else 500, remote.session.message)
    ensures remote.account.Done? && remote.session.Done? ==>
              reply == Json(200, [E("success", Bool(true)), E("account_id", Get(remote.account.value, "id")),
                                  E("created", remote.account.value),
                                  E("client_secret", Get(remote.session.value, "client_secret"))])
  {
    calls := [CreateAccount(payload)];
    if !remote.account.Done? {
      reply := PlainError(if remote.account.ApiError? then 400 else 500, remote.account.message);
      return;
    }
    var account := remote.account.value;
    calls := calls + [CreateSession(Get(account, "id"))];
    if !remote.session.Done? {
      reply := PlainError(if remote.session.ApiError? then 400 else 500, remote.session.message);
      return;
    }
    reply := Json(200, [E("success", Bool(true)), E("account_id", Get(account, "id")),
                        E("created", account),
                        E("client_secret", Get(remote.session.value, "client_secret"))]);
  }
}
