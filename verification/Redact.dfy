// internal/audit/redact.go: what an audit payload may carry.
module Redact {
  import opened Wrappers
  import Order
  import Text

  // A payload value by the kind reflection gives it; `Other` is a struct, a channel, a function.
  datatype Value =
    | Null
    | Str(text: string)
    | Scalar(repr: string)
    | Bytes
    | List(items: seq<Value>)
    | Object(fields: map<string, Value>)
    | OddMap(keyType: string)
    | NilPointer
    | Pointer(target: Value)
    | Other(kind: string)

  datatype RedactError =
    | Refused(what: string, path: string)
    | NotStringKeyed(path: string, keyType: string)
    | Unsupported(path: string, kind: string)

  // A stretch of a string, as the search for embedded phone numbers cuts it.
  datatype Chunk = Plain(text: string) | Number(text: string)

  // The tables, the patterns and the salted hash.
  datatype Redactor = Redactor(
    forbidden: map<string, string>,
    phoneKeys: set<string>,
    cookiePair: string -> bool,
    bearer: string -> bool,
    email: string -> bool,
    bareNumber: string -> bool,
    chunks: string -> seq<Chunk>,
    hash: string -> string)

  predicate IsDigit(c: char) { '0' <= c <= '9' }

  function NormaliseKey(k: string): string {
    if k == [] then []
    else
      var c := Text.LowerChar(k[0]);
      (if 'a' <= c <= 'z' || IsDigit(c) then [c] else []) + NormaliseKey(k[1..])
  }

  function OnlyDigits(s: string): string {
    if s == [] then [] else (if IsDigit(s[0]) then [s[0]] else []) + OnlyDigits(s[1..])
  }

  function LastFour(digits: string): string { if |digits| > 4 then digits[|digits| - 4..] else digits }

  // All that is ever kept of a phone number.
  function PhoneParts(r: Redactor, number: string): (string, string) {
    (r.hash(OnlyDigits(number)), LastFour(OnlyDigits(number)))
  }

  function PhoneRef(r: Redactor, number: string): Value {
    var parts := PhoneParts(r, number);
    Object(map["phone_hash" := Str(parts.0), "last4" := Str(parts.1)])
  }

  function Rewritten(r: Redactor, chunks: seq<Chunk>): string {
    if chunks == [] then []
    else (match chunks[0]
          case Plain(text) => text
          case Number(n) => "[phone:" + PhoneParts(r, n).0 + "/" + PhoneParts(r, n).1 + "]")
         + Rewritten(r, chunks[1..])
  }

  function RootOr(path: string): string { if path == "" then "(root)" else path }

  function Child(path: string, key: string): string { if path == "" then key else path + "." + key }

  function Decimal(n: nat): string {
    if n < 10 then [('0' as int + n) as char] else Decimal(n / 10) + [('0' as int + n % 10) as char]
  }

  function Element(path: string, i: nat): string { RootOr(path) + "[" + Decimal(i) + "]" }

  // redact.go:299-320
  function ScrubString(r: Redactor, path: string, s: string): Result<Value, RedactError> {
    if r.cookiePair(s) then Err(Refused("a google cookie", RootOr(path)))
    else if r.bearer(s) then Err(Refused("a token", RootOr(path)))
    else if r.email(s) then Err(Refused("a google account address", RootOr(path)))
    else if r.bareNumber(s) && 7 <= |OnlyDigits(s)| <= 15 then Ok(PhoneRef(r, s))
    else if exists i :: 0 <= i < |r.chunks(s)| && r.chunks(s)[i].Number? then Ok(Str(Rewritten(r, r.chunks(s))))
    else Ok(Str(s))
  }

  // redact.go:282-294
  function AsString(v: Value): Option<string> {
    match v
    case Str(s) => Some(s)
    case Pointer(target) => AsString(target)
    case _ => None
  }

  ghost function Redacted(r: Redactor, path: string, v: Value): Result<Value, RedactError>
    decreases v, 1, 0
  {
    match v
    case Null => Ok(Null)
    case NilPointer => Ok(Null)
    case Pointer(target) => Redacted(r, path, target)
    case Str(s) => ScrubString(r, path, s)
    case Scalar(_) => Ok(v)
    case Bytes => Err(Refused("raw bytes", RootOr(path)))
    case List(items) => RedactedItems(r, path, v, 0, [])
    case Object(fields) => RedactedFields(r, path, v, Order.SortedKeys(fields.Keys), map[])
    case OddMap(keyType) => Err(NotStringKeyed(RootOr(path), keyType))
    case Other(kind) => Err(Unsupported(RootOr(path), kind))
  }

  ghost function RedactedItems(r: Redactor, path: string, v: Value, i: nat, out: seq<Value>): Result<Value, RedactError>
    requires v.List? && i <= |v.items|
    decreases v, 0, |v.items| - i
  {
    if i == |v.items| then Ok(List(out))
    else
      match Redacted(r, Element(path, i), v.items[i])
      case Err(e) => Err(e)
      case Ok(x) => RedactedItems(r, path, v, i + 1, out + [x])
  }

  // One field: its key decides first, then its value.
  ghost function RedactedField(r: Redactor, path: string, v: Value, k: string): Result<Value, RedactError>
    requires v.Object? && k in v.fields
    decreases v, 0, 0
  {
    var norm := NormaliseKey(k);
    if norm in r.forbidden then Err(Refused(r.forbidden[norm], Child(path, k)))
    else if norm in r.phoneKeys then
      match AsString(v.fields[k])
      case None => Err(Refused("a phone number", Child(path, k)))
      case Some(s) => Ok(PhoneRef(r, s))
    else Redacted(r, Child(path, k), v.fields[k])
  }

  ghost function RedactedFields(r: Redactor, path: string, v: Value, keys: seq<string>,
      out: map<string, Value>): Result<Value, RedactError>
    requires v.Object? && forall k :: k in keys ==> k in v.fields
    decreases v, 0, 1 + |keys|
  {
    if keys == [] then Ok(Object(out))
    else
      match RedactedField(r, path, v, keys[0])
      case Err(e) => Err(e)
      case Ok(x) => RedactedFields(r, path, v, keys[1..], out[keys[0] := x])
  }

  // redact.go:192-273
  method RedactValue(r: Redactor, path: string, v: Value) returns (out: Result<Value, RedactError>)
    ensures out == Redacted(r, path, v)
    decreases v, 1
  {
    match v
    case Null => return Ok(Null);
    case NilPointer => return Ok(Null);
    case Pointer(target) => out := RedactValue(r, path, target);
    case Str(s) => return ScrubString(r, path, s);
    case Scalar(_) => return Ok(v);
    case Bytes => return Err(Refused("raw bytes", RootOr(path)));
    case List(items) => out := RedactList(r, path, v);
    case Object(fields) => out := RedactObject(r, path, v);
    case OddMap(keyType) => return Err(NotStringKeyed(RootOr(path), keyType));
    case Other(kind) => return Err(Unsupported(RootOr(path), kind));
  }

  method RedactList(r: Redactor, path: string, v: Value) returns (out: Result<Value, RedactError>)
    requires v.List?
    ensures out == Redacted(r, path, v)
    decreases v, 0
  {
    var done: seq<Value> := [];
    for i := 0 to |v.items|
      invariant RedactedItems(r, path, v, i, done) == Redacted(r, path, v)
    {
      var e := RedactValue(r, Element(path, i), v.items[i]);
      if e.Err? { return Err(e.error); }
      done := done + [e.value];
    }
    return Ok(List(done));
  }

  method RedactObject(r: Redactor, path: string, v: Value) returns (out: Result<Value, RedactError>)
    requires v.Object?
    ensures out == Redacted(r, path, v)
    decreases v, 0
  {
    var keys := Order.Sort(v.fields.Keys);
    var done: map<string, Value> := map[];
    ghost var whole := Redacted(r, path, v);
    assert keys[0..] == keys;
    for i := 0 to |keys|
      invariant forall k :: k in keys ==> k in v.fields
      invariant forall k :: k in keys[i..] ==> k in v.fields
      invariant RedactedFields(r, path, v, keys[i..], done) == whole
    {
      var k := keys[i];
      assert keys[i..][0] == k && keys[i..][1..] == keys[i + 1..];
      var norm := NormaliseKey(k);
      if norm in r.forbidden { return Err(Refused(r.forbidden[norm], Child(path, k))); }
      if norm in r.phoneKeys {
        var s := AsString(v.fields[k]);
        if s.None? { return Err(Refused("a phone number", Child(path, k))); }
        done := done[k := PhoneRef(r, s.value)];
        continue;
      }
      var red := RedactValue(r, Child(path, k), v.fields[k]);
      if red.Err? { return Err(red.error); }
      done := done[k := red.value];
    }
    return Ok(Object(done));
  }

  // redact.go:169-181. A nil payload is an empty one.
  method Payload(r: Redactor, p: Option<map<string, Value>>) returns (out: Result<map<string, Value>, RedactError>)
    ensures p.None? ==> out == Ok(map[])
    ensures p.Some? ==>
      match Redacted(r, "", Object(p.value))
      case Err(e) => out == Err(e)
      case Ok(v) => v.Object? && out == Ok(v.fields)
  {
    if p.None? { return Ok(map[]); }
    var v := RedactValue(r, "", Object(p.value));
    if v.Err? { return Err(v.error); }
    ObjectsStayObjects(r, "", Object(p.value), Order.SortedKeys(p.value.Keys), map[]);
    return Ok(v.value.fields);
  }

  lemma {:induction false} ObjectsStayObjects(r: Redactor, path: string, v: Value, keys: seq<string>,
      out: map<string, Value>)
    requires v.Object? && forall k :: k in keys ==> k in v.fields
    ensures RedactedFields(r, path, v, keys, out).Ok? ==> RedactedFields(r, path, v, keys, out).value.Object?
    decreases |keys|
  {
    if keys != [] {
      match RedactedField(r, path, v, keys[0])
      case Err(_) =>
      case Ok(x) => ObjectsStayObjects(r, path, v, keys[1..], out[keys[0] := x]);
    }
  }
}
