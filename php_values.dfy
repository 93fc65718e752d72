/** PHP values as `json_decode($text, true)` produces them, and the array
    operations the endpoints apply to them. */
module Php {

  datatype Option<+T> = None | Some(value: T)

  /** A PHP array key: an integer, or a string that is not a canonical integer. */
  datatype Key = IntKey(n: int) | StrKey(s: string)

  /** A decoded JSON value. A PHP array (JSON list or object alike) is an
      ordered sequence of key/value entries. Floats are not represented. */
  datatype Value =
    | Null
    | Bool(b: bool)
    | Int(i: int)
    | Str(s: string)
    | Arr(entries: seq<Entry>)

  datatype Entry = Entry(key: Key, val: Value)

  /** An entry under a literal string key, as in `['id' => $x]`. */
  function E(k: string, v: Value): Entry {
    Entry(StrKey(k), v)
  }

  /** PHP's conversion to bool: null, false, 0, "", "0" and [] are falsy. */
  predicate Truthy(v: Value): (b: bool)
    ensures !b <==> v in {Null, Bool(false), Int(0), Str(""), Str("0"), Arr([])}
  {
    match v
    case Null => false
    case Bool(b) => b
    case Int(i) => i != 0
    case Str(s) => s != "" && s != "0"
    case Arr(es) => es != []
  }

  predicate DistinctKeys(es: seq<Entry>) {
    forall i, j :: 0 <= i < j < |es| ==> es[i].key != es[j].key
  }

  /** Every array in `v`, at any depth, has distinct keys, as every PHP array does. */
  predicate WellFormed(v: Value)
    decreases v
  {
    match v
    case Arr(es) => DistinctKeys(es) && forall i :: 0 <= i < |es| ==> WellFormed(es[i].val)
    case _ => true
  }

  /** Arrays in `v` are nested at most `depth` levels deep (a scalar has depth 0). */
  predicate Nested(v: Value, depth: nat)
    decreases v
  {
    match v
    case Arr(es) => depth > 0 && forall i :: 0 <= i < |es| ==> Nested(es[i].val, depth - 1)
    case _ => true
  }

  /** The value stored under `k`, looked up from the front. */
  function Find(es: seq<Entry>, k: Key): (r: Option<Value>)
    ensures r.None? <==> forall i :: 0 <= i < |es| ==> es[i].key != k
    ensures r.Some? ==> Entry(k, r.value) in es
  {
    if es == [] then None
    else if es[0].key == k then Some(es[0].val)
    else Find(es[1..], k)
  }

  predicate HasKey(es: seq<Entry>, k: string) {
    Find(es, StrKey(k)).Some?
  }

  /** `$v[$k] ?? null`; indexing a string, number or null gives null here. */
  function Get(v: Value, k: string): (r: Value)
    ensures r != Null ==> v.Arr? && Find(v.entries, StrKey(k)) == Some(r)
    ensures v.Arr? && Find(v.entries, StrKey(k)).Some? ==> r == Find(v.entries, StrKey(k)).value
  {
    match v
    case Arr(es) => (match Find(es, StrKey(k)) case Some(x) => x case None => Null)
    case _ => Null
  }

  /** `$v[$k] ?? $default`. */
  function GetOr(v: Value, k: string, default: Value): (r: Value)
    ensures Get(v, k) != Null ==> r == Get(v, k)
    ensures Get(v, k) == Null ==> r == default
  {
    var x := Get(v, k);
    if x == Null then default else x
  }

  /** `empty($v[$k])`: false exactly when `$v` is an array holding `k` with
      a truthy value. */
  predicate IsEmpty(v: Value, k: string): (r: bool)
    ensures r <==> !(v.Arr? && Find(v.entries, StrKey(k)).Some? && Truthy(Find(v.entries, StrKey(k)).value))
  {
    !Truthy(Get(v, k))
  }

  /** `$a[$k] = $v`: overwrites in place when the key is present, appends otherwise. */
  function Put(es: seq<Entry>, e: Entry): (r: seq<Entry>)
    ensures Find(r, e.key) == Some(e.val)
    ensures Find(es, e.key).None? ==> r == es + [e]
  {
    if es == [] then [e]
    else if es[0].key == e.key then [e] + es[1..]
    else [es[0]] + Put(es[1..], e)
  }

  /** Assigning one key leaves every other key's lookup as it was. */
  lemma {:induction false} PutKeepsOthers(es: seq<Entry>, e: Entry, k: Key)
    requires k != e.key
    ensures Find(Put(es, e), k) == Find(es, k)
  {
    if es != [] && es[0].key != e.key {
      PutKeepsOthers(es[1..], e, k);
    }
  }

  /** Assigning brings in no entry but the assigned one. */
  lemma {:induction false} PutMembers(es: seq<Entry>, e: Entry, x: Entry)
    requires x in Put(es, e)
    ensures x in es || x == e
  {
    if es != [] && es[0].key != e.key && x != es[0] {
      assert x in Put(es[1..], e);
      PutMembers(es[1..], e, x);
    }
  }

  /** Assigning into an array keeps its keys distinct. */
  lemma {:induction false} PutDistinct(es: seq<Entry>, e: Entry)
    requires DistinctKeys(es)
    ensures DistinctKeys(Put(es, e))
  {
    if es != [] && es[0].key != e.key {
      PutDistinct(es[1..], e);
      var r := Put(es, e);
      assert r == [es[0]] + Put(es[1..], e);
      forall j | 1 <= j < |r| ensures r[0].key != r[j].key {
        assert r[j] in Put(es[1..], e);
        PutMembers(es[1..], e, r[j]);
      }
    }
  }

  /** Looking up in two arrays laid end to end finds the first one's entry first. */
  lemma {:induction false} FindAppend(a: seq<Entry>, b: seq<Entry>, k: Key)
    ensures Find(a + b, k) == if Find(a, k).Some? then Find(a, k) else Find(b, k)
  {
    if a != [] {
      assert (a + b)[1..] == a[1..] + b;
      FindAppend(a[1..], b, k);
    } else {
      assert a + b == b;
    }
  }

  /** `array_filter($a)` without a callback: drops every entry whose value is
      falsy and keeps the rest, with their keys, in order. */
  function ArrayFilter(es: seq<Entry>): (r: seq<Entry>)
    ensures |r| <= |es|
  {
    if es == [] then []
    else (if Truthy(es[0].val) then [es[0]] else []) + ArrayFilter(es[1..])
  }

  /** `array_filter` keeps exactly the entries with a truthy value. */
  lemma {:induction false} FilterMembers(es: seq<Entry>, x: Entry)
    ensures x in ArrayFilter(es) <==> x in es && Truthy(x.val)
  {
    if es != [] {
      FilterMembers(es[1..], x);
      assert es == [es[0]] + es[1..];
    }
  }

  /** `array_filter` works entry by entry, keeping the order: filtering two
      arrays laid end to end is filtering each. */
  lemma {:induction false} FilterAppend(a: seq<Entry>, b: seq<Entry>)
    ensures ArrayFilter(a + b) == ArrayFilter(a) + ArrayFilter(b)
  {
    if a != [] {
      assert (a + b)[1..] == a[1..] + b;
      FilterAppend(a[1..], b);
    } else {
      assert a + b == b;
    }
  }

  /** The literal `['f1' => $src['f1'] ?? null, 'f2' => ...]` for the listed fields. */
  function Pick(src: Value, fields: seq<string>): (r: seq<Entry>)
    ensures |r| == |fields|
  {
    if fields == [] then [] else [E(fields[0], Get(src, fields[0]))] + Pick(src, fields[1..])
  }

  /** After `array_filter`, a picked field is present exactly when the source
      holds a truthy value under it, and then it carries that value. */
  lemma {:induction false} PickFiltered(src: Value, fields: seq<string>, f: string)
    ensures Find(ArrayFilter(Pick(src, fields)), StrKey(f))
         == if f in fields && Truthy(Get(src, f)) then Some(Get(src, f)) else None
  {
    if fields != [] {
      PickFiltered(src, fields[1..], f);
      FilterConsFind(E(fields[0], Get(src, fields[0])), Pick(src, fields[1..]), StrKey(f));
      assert f in fields <==> f == fields[0] || f in fields[1..] by {
        assert fields == [fields[0]] + fields[1..];
      }
    }
  }

  /** Filtering adds no key. */
  lemma {:induction false} FilterKeepsAbsent(es: seq<Entry>, k: Key)
    requires Find(es, k).None?
    ensures Find(ArrayFilter(es), k).None?
  {
    if es != [] {
      assert es == [es[0]] + es[1..];
      FilterKeepsAbsent(es[1..], k);
      FilterConsFind(es[0], es[1..], k);
    }
  }

  /** Looking up a key after filtering an array with one more entry in front. */
  lemma FilterConsFind(head: Entry, rest: seq<Entry>, k: Key)
    ensures Find(ArrayFilter([head] + rest), k)
         == if Truthy(head.val) && head.key == k then Some(head.val) else Find(ArrayFilter(rest), k)
  {
    assert ([head] + rest)[1..] == rest;
    var front := if Truthy(head.val) then [head] else [];
    assert ArrayFilter([head] + rest) == front + ArrayFilter(rest);
    FindAppend(front, ArrayFilter(rest), k);
  }

  function UpperChar(c: char): char {
    if 'a' <= c <= 'z' then (c as int - 32) as char else c
  }

  /** `strtoupper`: ASCII letters only, as PHP 8.2 and later do. */
  function Upper(s: string): (r: string)
    ensures |r| == |s|
    ensures forall i :: 0 <= i < |s| ==> r[i] == UpperChar(s[i])
    ensures forall i :: 0 <= i < |r| ==> !('a' <= r[i] <= 'z')
  {
    if s == [] then [] else [UpperChar(s[0])] + Upper(s[1..])
  }

  /** A string without lower-case ASCII letters is its own upper case;
      in particular `strtoupper` is idempotent. */
  lemma UpperFixes(s: string)
    requires forall i :: 0 <= i < |s| ==> !('a' <= s[i] <= 'z')
    ensures Upper(s) == s
  {
    assert forall i :: 0 <= i < |s| ==> Upper(s)[i] == s[i];
  }

  function Digit(d: nat): char
    requires d < 10
  {
    "0123456789"[d]
  }

  /** PHP's `(string)` of an integer: decimal digits, `-` in front of a negative. */
  function DecimalString(i: int): (r: string)
    ensures r != ""
    decreases if i < 0 then 1 - i else i
  {
    if i < 0 then "-" + DecimalString(-i)
    else if i < 10 then [Digit(i)]
    else DecimalString(i / 10) + [Digit(i % 10)]
  }

  /** `payload` is `front` followed by exactly the guarded blocks, as a run
      of `if (guards[j]) $a[key_j] = block_j;` leaves it: keys distinct, the
      front untouched, each block found when its guard holds and absent
      otherwise, and after the front the chosen blocks in their order. */
  predicate Laid(payload: seq<Entry>, front: seq<Entry>, guards: seq<bool>, blocks: seq<Entry>)
    requires |guards| == |blocks|
  {
    && DistinctKeys(payload)
    && |front| <= |payload| && payload[..|front|] == front
    && payload[|front|..] == Chosen(guards, blocks)
    && (forall j :: 0 <= j < |blocks| ==>
          Find(payload, blocks[j].key) == if guards[j] then Some(blocks[j].val) else None)
    && (forall i :: |front| <= i < |payload| ==> payload[i] in blocks)
  }

  /** The blocks whose guards hold, in order. */
  function Chosen(guards: seq<bool>, blocks: seq<Entry>): seq<Entry>
    requires |guards| == |blocks|
    decreases |guards|
  {
    if guards == [] then []
    else (if guards[0] then [blocks[0]] else []) + Chosen(guards[1..], blocks[1..])
  }

  /** At most one entry per block is chosen. */
  lemma {:induction false} ChosenLength(guards: seq<bool>, blocks: seq<Entry>)
    requires |guards| == |blocks|
    ensures |Chosen(guards, blocks)| <= |guards|
    decreases |guards|
  {
    if guards != [] {
      ChosenLength(guards[1..], blocks[1..]);
    }
  }

  /** Choosing over one more guard at the end. */
  lemma {:induction false} ChosenSnoc(guards: seq<bool>, blocks: seq<Entry>, g: bool, e: Entry)
    requires |guards| == |blocks|
    ensures Chosen(guards + [g], blocks + [e]) == Chosen(guards, blocks) + (if g then [e] else [])
    decreases |guards|
  {
    if guards == [] {
      assert ([] + [g])[1..] == [] && ([] + [e])[1..] == [];
    } else {
      ChosenSnoc(guards[1..], blocks[1..], g, e);
      assert (guards + [g])[1..] == guards[1..] + [g];
      assert (blocks + [e])[1..] == blocks[1..] + [e];
    }
  }

  /** Before any assignment the array is its front. */
  lemma LaidStart(front: seq<Entry>)
    requires DistinctKeys(front)
    ensures Laid(front, front, [], [])
  {
    assert front[..|front|] == front;
    assert front[|front|..] == [];
  }

  /** One more guarded assignment under a key neither the front nor an
      earlier block uses: it appends the block when the guard holds. */
  lemma LaidStep(payload: seq<Entry>, front: seq<Entry>, guards: seq<bool>, blocks: seq<Entry>, g: bool, e: Entry)
    requires |guards| == |blocks| && Laid(payload, front, guards, blocks)
    requires Find(front, e.key).None?
    requires forall j :: 0 <= j < |blocks| ==> blocks[j].key != e.key
    ensures Laid(if g then Put(payload, e) else payload, front, guards + [g], blocks + [e])
  {
    assert forall i :: 0 <= i < |payload| ==> payload[i].key != e.key by {
      forall i | 0 <= i < |payload| ensures payload[i].key != e.key {
        if i < |front| {
          assert payload[i] == payload[..|front|][i];
        }
      }
    }
    assert DistinctKeys(if g then Put(payload, e) else payload) by {
      if g {
        PutDistinct(payload, e);
      }
    }
    assert g ==> Put(payload, e) == payload + [e] by {
      if g {
        PutDistinct(payload, e);
      }
    }
    StepSlices(payload, |front|, guards, blocks, g, e);
    StepFinds(payload, guards, blocks, g, e);
    StepInBlocks(payload, |front|, blocks, g, e);
  }

  /** One more guarded block keeps the front and lays the chosen blocks after it. */
  lemma StepSlices(payload: seq<Entry>, n: nat, guards: seq<bool>, blocks: seq<Entry>, g: bool, e: Entry)
    requires |guards| == |blocks| && n <= |payload|
    requires payload[n..] == Chosen(guards, blocks)
    ensures var next := if g then payload + [e] else payload;
      next[..n] == payload[..n] && next[n..] == Chosen(guards + [g], blocks + [e])
  {
    ChosenSnoc(guards, blocks, g, e);
    if g {
      assert (payload + [e])[n..] == payload[n..] + [e];
    }
  }

  /** One more guarded block keeps every block's lookup as its guard says. */
  lemma StepFinds(payload: seq<Entry>, guards: seq<bool>, blocks: seq<Entry>, g: bool, e: Entry)
    requires |guards| == |blocks|
    requires forall j :: 0 <= j < |blocks| ==>
      Find(payload, blocks[j].key) == if guards[j] then Some(blocks[j].val) else None
    requires Find(payload, e.key).None?
    requires forall j :: 0 <= j < |blocks| ==> blocks[j].key != e.key
    ensures var next, guards', blocks' := (if g then payload + [e] else payload), guards + [g], blocks + [e];
      forall j :: 0 <= j < |blocks'| ==>
        Find(next, blocks'[j].key) == if guards'[j] then Some(blocks'[j].val) else None
  {
    var next, guards', blocks' := (if g then payload + [e] else payload), guards + [g], blocks + [e];
    forall j | 0 <= j < |blocks'|
      ensures Find(next, blocks'[j].key) == if guards'[j] then Some(blocks'[j].val) else None
    {
      if j < |blocks| {
        assert blocks'[j] == blocks[j] && guards'[j] == guards[j];
        assert Find(next, blocks[j].key) == Find(payload, blocks[j].key) by {
          if g {
            FindAppend(payload, [e], blocks[j].key);
          }
        }
      } else {
        assert blocks'[j] == e && guards'[j] == g;
        if g {
          FindAppend(payload, [e], e.key);
        }
      }
    }
  }

  /** One more guarded block keeps every entry after the front among the blocks. */
  lemma StepInBlocks(payload: seq<Entry>, n: nat, blocks: seq<Entry>, g: bool, e: Entry)
    requires forall i :: n <= i < |payload| ==> payload[i] in blocks
    ensures var next := if g then payload + [e] else payload;
      forall i :: n <= i < |next| ==> next[i] in blocks + [e]
  {
    var next := if g then payload + [e] else payload;
    forall i | n <= i < |next| ensures next[i] in blocks + [e] {
      if i < |payload| {
        assert next[i] == payload[i];
      }
    }
  }

  /** The array after `if (guards[0]) $a[k0] = blocks[0]; if (guards[1]) ...`
      on `front`. */
  function Assigned(front: seq<Entry>, guards: seq<bool>, blocks: seq<Entry>): seq<Entry>
    requires |guards| == |blocks|
    decreases |guards|
  {
    if guards == [] then front
    else
      var n := |guards| - 1;
      var before := Assigned(front, guards[..n], blocks[..n]);
      if guards[n] then Put(before, blocks[n]) else before
  }

  /** One more `if` at the end of the run. */
  lemma AssignedSnoc(front: seq<Entry>, guards: seq<bool>, blocks: seq<Entry>, g: bool, e: Entry)
    requires |guards| == |blocks|
    ensures var before := Assigned(front, guards, blocks);
      Assigned(front, guards + [g], blocks + [e]) == if g then Put(before, e) else before
  {
    assert (guards + [g])[..|guards|] == guards && (blocks + [e])[..|blocks|] == blocks;
  }

  /** Three entries with pairwise different keys have distinct keys. */
  lemma Distinct3(es: seq<Entry>)
    requires |es| == 3 && es[0].key != es[1].key && es[0].key != es[2].key && es[1].key != es[2].key
    ensures DistinctKeys(es)
  {
  }

  /** A three-element sequence, built up one element at a time. */
  lemma Listed3<X>(s: seq<X>)
    requires |s| == 3
    ensures s == [] + [s[0]] + [s[1]] + [s[2]]
  {
  }

  /** A four-element sequence, built up one element at a time. */
  lemma Listed4<X>(s: seq<X>)
    requires |s| == 4
    ensures s == [] + [s[0]] + [s[1]] + [s[2]] + [s[3]]
  {
  }

  /** Guarded assignments under distinct keys the front does not hold leave
      the front followed by exactly the guarded blocks. */
  lemma {:induction false} AssignedLaid(front: seq<Entry>, guards: seq<bool>, blocks: seq<Entry>)
    requires |guards| == |blocks|
    requires DistinctKeys(front) && DistinctKeys(blocks)
    requires forall j :: 0 <= j < |blocks| ==> Find(front, blocks[j].key).None?
    ensures Laid(Assigned(front, guards, blocks), front, guards, blocks)
    decreases |guards|
  {
    var n := |guards|;
    if n == 0 {
      LaidStart(front);
    } else {
      var g, b := guards[..n - 1], blocks[..n - 1];
      AssignedLaid(front, g, b);
      LaidStep(Assigned(front, g, b), front, g, b, guards[n - 1], blocks[n - 1]);
      assert g + [guards[n - 1]] == guards && b + [blocks[n - 1]] == blocks;
    }
  }
}

module Sdk {
  datatype Outcome<+T> = Done(value: T) | ApiError(message: string) | Failed(message: string)
}

/** What an endpoint sends back. */
module Http {
  import opened Php
  import opened Sdk

  const ProviderError := "Stripe API error"
  const InternalError := "Internal server error"

  /** A JSON body with an HTTP status, or an uncaught throwable: PHP then
      answers 500 with its own fatal-error text and no JSON. */
  datatype Reply = Json(code: int, body: seq<Entry>) | Fatal(message: string)

  /** `successResponse($data)`. */
  function SuccessResponse(data: seq<Entry>, now: string): (r: Reply)
    ensures IsSuccessEnvelope(r) && r.body[1].val == Arr(data)
  {
    Json(200, [E("success", Bool(true)), E("data", Arr(data)), E("timestamp", Str(now))])
  }

  /** `errorResponse($message, $code, $details)`: `details` is always present, null when absent. */
  function ErrorResponse(message: string, code: int, details: Option<seq<Entry>>, now: string): (r: Reply)
    ensures IsErrorEnvelope(r) && r.code == code && r.body[1].val == Str(message)
    ensures r.body[2].val == if details.Some? then Arr(details.value) else Null
  {
    Json(code, [
      E("success", Bool(false)),
      E("error", Str(message)),
      E("details", match details case Some(d) => Arr(d) case None => Null),
      E("timestamp", Str(now))])
  }

  /** The `{success:false, error, details, timestamp}` shape. */
  predicate IsErrorEnvelope(r: Reply) {
    r.Json? && |r.body| == 4
    && r.body[0] == E("success", Bool(false))
    && r.body[1].key == StrKey("error") && r.body[1].val.Str?
    && r.body[2].key == StrKey("details") && (r.body[2].val.Null? || r.body[2].val.Arr?)
    && r.body[3].key == StrKey("timestamp")
  }

  /** The `{success:true, data, timestamp}` shape. */
  predicate IsSuccessEnvelope(r: Reply) {
    r.Json? && r.code == 200 && |r.body| == 3
    && r.body[0] == E("success", Bool(true))
    && r.body[1].key == StrKey("data") && r.body[1].val.Arr?
    && r.body[2].key == StrKey("timestamp")
  }

  /** `http_response_code($code); echo json_encode(['error' => $message])`. */
  function PlainError(code: int, message: string): (r: Reply)
    ensures r.Json? && r.code == code && r.body == [E("error", Str(message))]
  {
    Json(code, [E("error", Str(message))])
  }

  /** The two `catch` blocks of `simulate_transfer.php`: the provider's own
      errors answer 400, any other throwable 500, both with the exception's
      message as details. */
  function Caught<T>(o: Outcome<T>, now: string): (r: Reply)
    requires !o.Done?
    ensures IsErrorEnvelope(r)
    ensures r.code == (if o.ApiError? then 400 else 500)
    ensures r.body[1].val == Str(if o.ApiError? then ProviderError else InternalError)
    ensures r.body[2].val == Arr([E("message", Str(o.message))])
  {
    if o.ApiError? then ErrorResponse(ProviderError, 400, Some([E("message", Str(o.message))]), now)
    else ErrorResponse(InternalError, 500, Some([E("message", Str(o.message))]), now)
  }
}
