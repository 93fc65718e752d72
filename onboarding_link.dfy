/** `create_onboarding_link.php`: ask the provider for a hosted onboarding
    link for a connected account, with refresh and return URLs that lead
    back to the embedded onboarding page. The file declares `strict_types`,
    so `urlencode` refuses an account id that is not a string. */
module OnboardingLink {
  import opened Php
  import opened Sdk
  import opened Http

  const AccountIdRequired := "account_id é obrigatório"
  const DefaultAppUrl := "http://localhost:4242"
  const OnboardingPage := "/split/embedded_onboarding.html"
  const LinkType := "account_onboarding"

  /** `rtrim($s, '/')`. */
  function TrimSlashes(s: string): (r: string)
    ensures |r| <= |s| && r == s[..|r|]
    ensures r == [] || r[|r| - 1] != '/'
    ensures forall i :: |r| <= i < |s| ==> s[i] == '/'
  {
    if s != [] && s[|s| - 1] == '/' then
      var r := TrimSlashes(s[..|s| - 1]);
      assert s[..|s| - 1][..|r|] == s[..|r|];
      r
    else s
  }

  /** `rtrim` is idempotent, and it leaves a string without a trailing
      slash alone. */
  lemma TrimSlashesFixes(s: string)
    requires s == [] || s[|s| - 1] != '/'
    ensures TrimSlashes(s) == s
  {
  }

  /** `rtrim(getenv('APP_URL') ?: 'http://localhost:4242', '/')`: an unset,
      empty or "0" variable falls back to the local address. */
  function BaseUrl(appUrl: Option<string>): (r: string)
    ensures r == [] || r[|r| - 1] != '/'
    ensures appUrl.Some? && Truthy(Str(appUrl.value)) ==> r == TrimSlashes(appUrl.value)
    ensures !(appUrl.Some? && Truthy(Str(appUrl.value))) ==> r == DefaultAppUrl
  {
    TrimSlashesFixes(DefaultAppUrl);
    TrimSlashes(if appUrl.Some? && Truthy(Str(appUrl.value)) then appUrl.value else DefaultAppUrl)
  }

  /** The path and query of the onboarding page up to the account id. */
  function PageQuery(status: string): string {
    OnboardingPage + "?status=" + status + "&account="
  }

  /** The page the provider sends the user back to; `encode` is `urlencode`. */
  function PageUrl(base: string, status: string, id: string, encode: string -> string): string {
    base + PageQuery(status) + encode(id)
  }

  /** The SDK call: `AccountLink::create([...])`. */
  datatype LinkCall = CreateAccountLink(account: Value, linkType: string, refreshUrl: string, returnUrl: string)

  /** The reply and the SDK calls issued. */
  datatype Run = Run(reply: Reply, calls: seq<LinkCall>)

  /** The text of the `TypeError` `urlencode` raises for a value that is
      not a string. */
  function NotAString(v: Value): string {
    "urlencode(): Argument #1 ($string) must be of type string, "
    + (match v
       case Null => "null"
       case Bool(_) => "bool"
       case Int(_) => "int"
       case Str(_) => "string"
       case Arr(_) => "array")
    + " given"
  }

  /** The link request for a string account id: an onboarding link for that
      account, whose refresh and return URLs differ in their status. */
  function LinkRequest(id: string, appUrl: Option<string>, encode: string -> string): (r: LinkCall)
    ensures r.account == Str(id) && r.linkType == LinkType
    ensures r.refreshUrl != r.returnUrl
  {
    var base := BaseUrl(appUrl);
    var k := |base| + |OnboardingPage + "?status="| + 2;
    assert PageUrl(base, "refresh", id, encode)[k] == 'f';
    assert PageUrl(base, "return", id, encode)[k] == 't';
    CreateAccountLink(Str(id), LinkType, PageUrl(base, "refresh", id, encode), PageUrl(base, "return", id, encode))
  }

  /** The endpoint as written: only `ApiErrorException` is caught, so a
      `TypeError` from `urlencode` and any other throwable escape and PHP
      answers with a fatal error instead of the JSON envelope. */
  function HandleAsWritten(payload: Value, appUrl: Option<string>, encode: string -> string,
                           remote: Outcome<Value>, now: string): (r: Run)
    ensures IsEmpty(payload, "account_id") ==>
              r == Run(ErrorResponse(AccountIdRequired, 400, None, now), [])
    ensures !IsEmpty(payload, "account_id") && !Get(payload, "account_id").Str? ==>
              r == Run(Fatal(NotAString(Get(payload, "account_id"))), [])
    ensures r.calls != [] <==> !IsEmpty(payload, "account_id") && Get(payload, "account_id").Str?
    ensures r.calls != [] ==> r.calls == [LinkRequest(Get(payload, "account_id").s, appUrl, encode)]
    ensures r.calls != [] && remote.Done? ==> r.reply == SuccessResponse([E("url", Get(remote.value, "url"))], now)
    ensures r.calls != [] && remote.ApiError? ==>
              r.reply == ErrorResponse(ProviderError, 400, Some([E("message", Str(remote.message))]), now)
    ensures r.calls != [] && remote.Failed? ==> r.reply == Fatal(remote.message)
  {
    var accountId := Get(payload, "account_id");
    if !Truthy(accountId) then Run(ErrorResponse(AccountIdRequired, 400, None, now), [])
    else if !accountId.Str? then Run(Fatal(NotAString(accountId)), [])
    else
      var calls := [LinkRequest(accountId.s, appUrl, encode)];
      match remote
      case Done(link) => Run(SuccessResponse([E("url", Get(link, "url"))], now), calls)
      case ApiError(m) => Run(ErrorResponse(ProviderError, 400, Some([E("message", Str(m))]), now), calls)
      case Failed(m) => Run(Fatal(m), calls)
  }

  /** An integer account id passes the emptiness check and then breaks the
      endpoint: no JSON reply at all. */
  lemma IntegerIdEscapes(appUrl: Option<string>, encode: string -> string, remote: Outcome<Value>, now: string)
    ensures var payload := Arr([E("account_id", Int(123))]);
      HandleAsWritten(payload, appUrl, encode, remote, now).reply.Fatal?
  {
    var payload := Arr([E("account_id", Int(123))]);
    assert Get(payload, "account_id") == Int(123);
  }

  /** The endpoint with a final `catch (\Throwable $t)` that answers 500 with
      the envelope, as the transfer simulation does. */
  function Handle(payload: Value, appUrl: Option<string>, encode: string -> string,
                  remote: Outcome<Value>, now: string): (r: Run)
    ensures r.reply.Json?
  {
    var accountId := Get(payload, "account_id");
    if !Truthy(accountId) then Run(ErrorResponse(AccountIdRequired, 400, None, now), [])
    else if !accountId.Str? then
      var thrown: Outcome<Value> := Failed(NotAString(accountId));
      Run(Caught(thrown, now), [])
    else
      var calls := [LinkRequest(accountId.s, appUrl, encode)];
      match remote
      case Done(link) => Run(SuccessResponse([E("url", Get(link, "url"))], now), calls)
      case ApiError(m) => Run(Caught(remote, now), calls)
      case Failed(m) => Run(Caught(remote, now), calls)
  }

  /** Every reply of the corrected endpoint is one of the two envelopes;
      a failure answers 400 for the provider's errors and 500 otherwise. */
  lemma HandleAlwaysEnvelope(payload: Value, appUrl: Option<string>, encode: string -> string,
                             remote: Outcome<Value>, now: string)
    ensures var r := Handle(payload, appUrl, encode, remote, now).reply;
      IsSuccessEnvelope(r) || (IsErrorEnvelope(r) && (r.code == 400 || r.code == 500))
  {
  }

  /** Wherever the endpoint as written answers with JSON, the corrected one
      answers the same and issues the same calls. */
  lemma HandleKeepsAnswers(payload: Value, appUrl: Option<string>, encode: string -> string,
                           remote: Outcome<Value>, now: string)
    requires HandleAsWritten(payload, appUrl, encode, remote, now).reply.Json?
    ensures Handle(payload, appUrl, encode, remote, now) == HandleAsWritten(payload, appUrl, encode, remote, now)
  {
  }

  /** Both URLs lead to the onboarding page under the base URL, with exactly
      one `/` at the join, and end with the encoded account id. */
  lemma LinkUrlsShape(id: string, appUrl: Option<string>, encode: string -> string)
    ensures var c := LinkRequest(id, appUrl, encode); var base := BaseUrl(appUrl);
      && c.account == Str(id) && c.linkType == LinkType
      && (base == [] || base[|base| - 1] != '/')
      && c.refreshUrl[..|base|] == base && c.refreshUrl[|base|] == '/'
      && c.refreshUrl[|base| + |PageQuery("refresh")|..] == encode(id)
      && c.returnUrl[..|base|] == base && c.returnUrl[|base|] == '/'
      && c.returnUrl[|base| + |PageQuery("return")|..] == encode(id)
  {
    var base := BaseUrl(appUrl);
    Framed(base, PageQuery("refresh"), encode(id));
    Framed(base, PageQuery("return"), encode(id));
  }

  lemma Framed(front: string, mid: string, tail: string)
    requires mid != []
    ensures (front + mid + tail)[..|front|] == front
    ensures (front + mid + tail)[|front|] == mid[0]
    ensures (front + mid + tail)[|front| + |mid|..] == tail
  {
  }
}
