// What redaction guarantees of every payload.
module RedactTheorems {
  import opened Wrappers
  import opened Redact
  import Order

  // ----- keys, digits and phone numbers -----

  // Keys are compared by their letters and digits alone, in lower case.
  lemma {:induction false} KeysByLettersAndDigits(a: string, b: string, c: char)
    ensures NormaliseKey(a + b) == NormaliseKey(a) + NormaliseKey(b)
    ensures NormaliseKey([c]) == if 'A' <= c <= 'Z' then [c - 'A' + 'a']
                                 else if 'a' <= c <= 'z' || '0' <= c <= '9' then [c] else []
  {
    assert [c][1..] == [];
    if a == [] {
      assert a + b == b;
    } else {
      assert (a + b)[1..] == a[1..] + b;
      KeysByLettersAndDigits(a[1..], b, c);
    }
  }

  lemma {:induction false} DigitByDigit(a: string, b: string, c: char)
    ensures OnlyDigits(a + b) == OnlyDigits(a) + OnlyDigits(b)
    ensures OnlyDigits([c]) == if '0' <= c <= '9' then [c] else []
    ensures forall d :: d in OnlyDigits(a) ==> '0' <= d <= '9'
  {
    assert [c][1..] == [];
    if a == [] {
      assert a + b == b;
    } else {
      assert (a + b)[1..] == a[1..] + b;
      DigitByDigit(a[1..], b, c);
    }
  }

  // The last four of these digits, or all of them when there are fewer.
  predicate LastOf(last: string, digits: string) {
    && |last| <= 4 && |last| <= |digits| && last == digits[|digits| - |last|..]
    && (|last| < 4 ==> last == digits)
    && forall c :: c in last ==> '0' <= c <= '9'
  }

  // Two fields and no more: the salted hash of the number's digits, and the last of them.
  ghost predicate ShowsOnly(r: Redactor, out: Value, number: string) {
    exists last ::
      && LastOf(last, OnlyDigits(number))
      && out == Object(map["phone_hash" := Str(r.hash(OnlyDigits(number))), "last4" := Str(last)])
  }

  lemma LastFourIsLast(digits: string)
    requires forall d :: d in digits ==> '0' <= d <= '9'
    ensures LastOf(LastFour(digits), digits)
  {
    var last := LastFour(digits);
    forall c | c in last ensures '0' <= c <= '9' { assert c in digits; }
    assert |digits| <= 4 ==> digits[|digits| - |last|..] == digits;
  }

  lemma PhoneRefShows(r: Redactor, number: string)
    ensures LastOf(PhoneParts(r, number).1, OnlyDigits(number))
    ensures ShowsOnly(r, PhoneRef(r, number), number)
  {
    DigitByDigit(number, "", 'x');
    LastFourIsLast(OnlyDigits(number));
  }

  // n pointers in front of a value.
  function Behind(n: nat, v: Value): Value { if n == 0 then v else Pointer(Behind(n - 1, v)) }

  // What counts as a string under a phone key: one behind any number of pointers, and nothing else.
  lemma {:induction false} BehindPointers(n: nat, s: string)
    ensures AsString(Behind(n, Str(s))) == Some(s)
  {
    if n > 0 { BehindPointers(n - 1, s); }
  }

  lemma {:induction false} OnlyBehindPointers(v: Value, s: string) returns (n: nat)
    requires AsString(v) == Some(s)
    ensures v == Behind(n, Str(s))
  {
    n := 0;
    if v.Pointer? {
      var m := OnlyBehindPointers(v.target, s);
      n := m + 1;
    }
  }

  // ----- text -----

  // The text with each number replaced by its hash and its last digits, and every other stretch kept.
  ghost predicate Replaces(r: Redactor, chunks: seq<Chunk>, text: string)
    decreases chunks
  {
    if chunks == [] then text == ""
    else
      match chunks[0]
      case Plain(t) => t <= text && Replaces(r, chunks[1..], text[|t|..])
      case Number(n) => exists last :: LastOf(last, OnlyDigits(n)) && Marked(r, chunks, n, last, text)
  }

  ghost predicate Marked(r: Redactor, chunks: seq<Chunk>, n: string, last: string, text: string)
    requires chunks != []
    decreases chunks, 0
  {
    var mark := "[phone:" + r.hash(OnlyDigits(n)) + "/" + last + "]";
    mark <= text && Replaces(r, chunks[1..], text[|mark|..])
  }

  lemma {:induction false} RewrittenReplaces(r: Redactor, chunks: seq<Chunk>)
    ensures Replaces(r, chunks, Rewritten(r, chunks))
  {
    if chunks != [] {
      RewrittenReplaces(r, chunks[1..]);
      var rest, text := Rewritten(r, chunks[1..]), Rewritten(r, chunks);
      match chunks[0]
      case Plain(t) => assert text[|t|..] == rest;
      case Number(n) =>
        var last := PhoneParts(r, n).1;
        PhoneRefShows(r, n);
        var mark := "[phone:" + r.hash(OnlyDigits(n)) + "/" + last + "]";
        assert text == mark + rest && text[|mark|..] == rest;
        assert Marked(r, chunks, n, last, text);
    }
  }

  // What becomes of an accepted string: a bare number of seven to fifteen digits is a phone number, one
  // with numbers in it has them replaced, and any other is kept.
  ghost predicate Scrubbed(r: Redactor, s: string, out: Value) {
    if r.bareNumber(s) && 7 <= |OnlyDigits(s)| <= 15 then ShowsOnly(r, out, s)
    else if exists c :: c in r.chunks(s) && c.Number? then out.Str? && Replaces(r, r.chunks(s), out.text)
    else out == Str(s)
  }

  lemma StringsAreScrubbed(r: Redactor, path: string, s: string)
    requires ScrubString(r, path, s).Ok?
    ensures Scrubbed(r, s, ScrubString(r, path, s).value)
  {
    var chunks := r.chunks(s);
    if r.bareNumber(s) && 7 <= |OnlyDigits(s)| <= 15 {
      PhoneRefShows(r, s);
    } else {
      RewrittenReplaces(r, chunks);
      assert (exists c :: c in chunks && c.Number?) <==> exists i :: 0 <= i < |chunks| && chunks[i].Number?;
    }
  }

  // ----- lists and maps, element by element -----

  lemma {:induction false} ItemsOneByOne(r: Redactor, path: string, v: Value, i: nat, out: seq<Value>)
    requires v.List? && i <= |v.items|
    ensures var red := RedactedItems(r, path, v, i, out);
      && (red.Ok? <==> forall j :: i <= j < |v.items| ==> Redacted(r, Element(path, j), v.items[j]).Ok?)
      && (red.Ok? ==>
            && red.value.List? && |red.value.items| == |out| + |v.items| - i
            && red.value.items[..|out|] == out
            && forall j :: i <= j < |v.items| ==>
                 Redacted(r, Element(path, j), v.items[j]) == Ok(red.value.items[|out| + j - i]))
    decreases |v.items| - i
  {
    if i < |v.items| {
      match Redacted(r, Element(path, i), v.items[i])
      case Err(_) =>
      case Ok(x) =>
        ItemsOneByOne(r, path, v, i + 1, out + [x]);
        var red := RedactedItems(r, path, v, i, out);
        if red.Ok? {
          assert red.value.items[..|out| + 1] == out + [x];
          assert red.value.items[..|out|] == red.value.items[..|out| + 1][..|out|];
          assert red.value.items[|out|] == red.value.items[..|out| + 1][|out|];
        }
    }
  }

  lemma ListOneByOne(r: Redactor, path: string, v: Value)
    requires v.List?
    ensures var red := Redacted(r, path, v);
      && (red.Ok? <==> forall j :: 0 <= j < |v.items| ==> Redacted(r, Element(path, j), v.items[j]).Ok?)
      && (red.Ok? ==>
            && red.value.List? && |red.value.items| == |v.items|
            && forall j :: 0 <= j < |v.items| ==> Redacted(r, Element(path, j), v.items[j]) == Ok(red.value.items[j]))
  {
    ItemsOneByOne(r, path, v, 0, []);
    var red := Redacted(r, path, v);
    if red.Ok? {
      forall j | 0 <= j < |v.items| ensures Redacted(r, Element(path, j), v.items[j]) == Ok(red.value.items[j]) {
        assert 0 + j - 0 == j;
      }
    }
  }

  lemma {:induction false} FieldsOneByOne(r: Redactor, path: string, v: Value, keys: seq<string>,
      out: map<string, Value>)
    requires v.Object? && (forall k :: k in keys ==> k in v.fields)
    ensures var red := RedactedFields(r, path, v, keys, out);
      && (red.Ok? <==> forall k :: k in keys ==> RedactedField(r, path, v, k).Ok?)
      && (red.Ok? ==>
            && red.value.Object?
            && (forall k :: k in red.value.fields <==> k in out || k in keys)
            && (forall k :: k in keys ==> RedactedField(r, path, v, k) == Ok(red.value.fields[k]))
            && (forall k :: k in out && k !in keys ==> red.value.fields[k] == out[k]))
    decreases |keys|
  {
    if keys != [] {
      assert keys[0] in keys;
      assert forall k :: k in keys <==> k == keys[0] || k in keys[1..];
      match RedactedField(r, path, v, keys[0])
      case Err(_) =>
      case Ok(x) => FieldsOneByOne(r, path, v, keys[1..], out[keys[0] := x]);
    }
  }

  // Each field of a map is redacted by itself, and the map is accepted when every field is.
  lemma ObjectOneByOne(r: Redactor, path: string, v: Value)
    requires v.Object?
    ensures var red := Redacted(r, path, v);
      && (red.Ok? <==> forall k :: k in v.fields ==> RedactedField(r, path, v, k).Ok?)
      && (red.Ok? ==>
            && red.value.Object? && red.value.fields.Keys == v.fields.Keys
            && forall k :: k in v.fields ==> RedactedField(r, path, v, k) == Ok(red.value.fields[k]))
  {
    FieldsOneByOne(r, path, v, Order.SortedKeys(v.fields.Keys), map[]);
  }

  // ----- what is accepted -----

  ghost predicate Acceptable(r: Redactor, v: Value) {
    match v
    case Null => true
    case NilPointer => true
    case Scalar(_) => true
    case Pointer(target) => Acceptable(r, target)
    case Str(s) => !r.cookiePair(s) && !r.bearer(s) && !r.email(s)
    case List(items) => forall i :: 0 <= i < |items| ==> Acceptable(r, items[i])
    case Object(fields) => forall k :: k in fields ==>
      && NormaliseKey(k) !in r.forbidden
      && (if NormaliseKey(k) in r.phoneKeys then AsString(fields[k]).Some? else Acceptable(r, fields[k]))
    case _ => false
  }

  // A payload is accepted exactly when nothing in it, at any depth, is of a refused kind.
  lemma {:induction false} AcceptsExactly(r: Redactor, path: string, v: Value)
    ensures Redacted(r, path, v).Ok? <==> Acceptable(r, v)
    decreases v
  {
    match v
    case Pointer(target) => AcceptsExactly(r, path, target);
    case List(items) =>
      ListOneByOne(r, path, v);
      forall i | 0 <= i < |items| ensures Redacted(r, Element(path, i), items[i]).Ok? <==> Acceptable(r, items[i]) {
        AcceptsExactly(r, Element(path, i), items[i]);
      }
    case Object(fields) =>
      ObjectOneByOne(r, path, v);
      forall k | k in fields ensures Redacted(r, Child(path, k), fields[k]).Ok? <==> Acceptable(r, fields[k]) {
        AcceptsExactly(r, Child(path, k), fields[k]);
      }
    case _ =>
  }

  // ----- what comes out -----

  ghost predicate IsPhoneRef(r: Redactor, v: Value) { exists s :: ShowsOnly(r, v, s) }

  // Nothing in it, at any depth, stands under a forbidden key or is raw bytes, a pointer or of an
  // unknown kind, and under a phone key there is only a hash and four digits.
  ghost predicate Clean(r: Redactor, v: Value) {
    match v
    case Null => true
    case Scalar(_) => true
    case Str(_) => true
    case List(items) => forall i :: 0 <= i < |items| ==> Clean(r, items[i])
    case Object(fields) => forall k :: k in fields ==>
      && NormaliseKey(k) !in r.forbidden
      && (NormaliseKey(k) in r.phoneKeys ==> IsPhoneRef(r, fields[k]))
      && Clean(r, fields[k])
    case _ => false
  }

  // The tables leave the redactor's own two keys alone.
  predicate TablesOk(r: Redactor) {
    forall k :: k in ["phone_hash", "last4"] ==> NormaliseKey(k) !in r.forbidden && NormaliseKey(k) !in r.phoneKeys
  }

  lemma PhoneRefClean(r: Redactor, s: string)
    requires TablesOk(r)
    ensures Clean(r, PhoneRef(r, s))
  {
    assert "phone_hash" in ["phone_hash", "last4"] && "last4" in ["phone_hash", "last4"];
  }

  lemma {:induction false} OutputIsClean(r: Redactor, path: string, v: Value)
    requires TablesOk(r) && Redacted(r, path, v).Ok?
    ensures Clean(r, Redacted(r, path, v).value)
    decreases v
  {
    match v
    case Pointer(target) => OutputIsClean(r, path, target);
    case Str(s) => PhoneRefClean(r, s);
    case List(items) =>
      ListOneByOne(r, path, v);
      var out := Redacted(r, path, v).value;
      forall i | 0 <= i < |out.items| ensures Clean(r, out.items[i]) {
        OutputIsClean(r, Element(path, i), items[i]);
      }
    case Object(fields) =>
      ObjectOneByOne(r, path, v);
      var out := Redacted(r, path, v).value;
      forall k | k in out.fields
        ensures NormaliseKey(k) !in r.forbidden && Clean(r, out.fields[k])
        ensures NormaliseKey(k) in r.phoneKeys ==> IsPhoneRef(r, out.fields[k])
      {
        FieldClean(r, path, v, k);
      }
    case _ =>
  }

  lemma {:induction false} FieldClean(r: Redactor, path: string, v: Value, k: string)
    requires TablesOk(r) && v.Object? && k in v.fields && RedactedField(r, path, v, k).Ok?
    ensures NormaliseKey(k) !in r.forbidden && Clean(r, RedactedField(r, path, v, k).value)
    ensures NormaliseKey(k) in r.phoneKeys ==> IsPhoneRef(r, RedactedField(r, path, v, k).value)
    decreases v, 0
  {
    if NormaliseKey(k) in r.phoneKeys {
      PhoneRefClean(r, AsString(v.fields[k]).value);
      PhoneRefShows(r, AsString(v.fields[k]).value);
    } else {
      OutputIsClean(r, Child(path, k), v.fields[k]);
    }
  }

  // The output has the input's shape: the same keys, the same list lengths, scalars as they were, text
  // scrubbed, and under the phone keys what is shown of a number.
  ghost predicate SameShape(r: Redactor, v: Value, out: Value)
    decreases v
  {
    match v
    case Null => out == Null
    case NilPointer => out == Null
    case Scalar(_) => out == v
    case Pointer(target) => SameShape(r, target, out)
    case Str(s) => Scrubbed(r, s, out)
    case List(items) =>
      && out.List? && |out.items| == |items|
      && forall i :: 0 <= i < |items| ==> SameShape(r, items[i], out.items[i])
    case Object(fields) => out.Object? && out.fields.Keys == fields.Keys && forall k :: k in fields ==>
      if NormaliseKey(k) in r.phoneKeys
      then AsString(fields[k]).Some? && ShowsOnly(r, out.fields[k], AsString(fields[k]).value)
      else SameShape(r, fields[k], out.fields[k])
    case _ => false
  }

  lemma {:induction false} OutputKeepsShape(r: Redactor, path: string, v: Value)
    requires Redacted(r, path, v).Ok?
    ensures SameShape(r, v, Redacted(r, path, v).value)
    decreases v
  {
    match v
    case Str(s) => StringsAreScrubbed(r, path, s);
    case Pointer(target) => OutputKeepsShape(r, path, target);
    case List(items) =>
      ListOneByOne(r, path, v);
      forall i | 0 <= i < |items| ensures SameShape(r, items[i], Redacted(r, path, v).value.items[i]) {
        OutputKeepsShape(r, Element(path, i), items[i]);
      }
    case Object(fields) =>
      ObjectOneByOne(r, path, v);
      forall k | k in fields && NormaliseKey(k) !in r.phoneKeys
        ensures SameShape(r, fields[k], Redacted(r, path, v).value.fields[k])
      {
        OutputKeepsShape(r, Child(path, k), fields[k]);
      }
      forall k | k in fields && NormaliseKey(k) in r.phoneKeys
        ensures ShowsOnly(r, Redacted(r, path, v).value.fields[k], AsString(fields[k]).value)
      {
        PhoneRefShows(r, AsString(fields[k]).value);
      }
    case _ =>
  }

  // ----- what the output depends on -----

  // The same payload, but for phone numbers under phone keys that hash alike and end alike -- and,
  // where such a value is no string at all, whatever else it is.
  ghost predicate Alike(r: Redactor, v: Value, w: Value)
    decreases v
  {
    match v
    case Pointer(target) => w.Pointer? && Alike(r, target, w.target)
    case List(items) =>
      && w.List? && |w.items| == |items|
      && forall i :: 0 <= i < |items| ==> Alike(r, items[i], w.items[i])
    case Object(fields) => w.Object? && w.fields.Keys == fields.Keys && forall k :: k in fields ==>
      if NormaliseKey(k) in r.phoneKeys then SamePhone(r, AsString(fields[k]), AsString(w.fields[k]))
      else Alike(r, fields[k], w.fields[k])
    case _ => w == v
  }

  // Both are strings, with the same hash of their digits and the same last of them, or neither is one.
  ghost predicate SamePhone(r: Redactor, a: Option<string>, b: Option<string>) {
    if a.Some? && b.Some? then
      && r.hash(OnlyDigits(a.value)) == r.hash(OnlyDigits(b.value))
      && exists last :: LastOf(last, OnlyDigits(a.value)) && LastOf(last, OnlyDigits(b.value))
    else a.None? && b.None?
  }

  lemma LastOfOnce(a: string, b: string, digits: string)
    requires LastOf(a, digits) && LastOf(b, digits)
    ensures a == b
  {
  }

  lemma SamePhoneSameRef(r: Redactor, a: string, b: string)
    requires SamePhone(r, Some(a), Some(b))
    ensures PhoneRef(r, a) == PhoneRef(r, b)
  {
    var last :| LastOf(last, OnlyDigits(a)) && LastOf(last, OnlyDigits(b));
    PhoneRefShows(r, a);
    PhoneRefShows(r, b);
    LastOfOnce(last, PhoneParts(r, a).1, OnlyDigits(a));
    LastOfOnce(last, PhoneParts(r, b).1, OnlyDigits(b));
  }

  lemma {:induction false} AlikeItems(r: Redactor, path: string, v: Value, w: Value, i: nat, out: seq<Value>)
    requires v.List? && w.List? && |v.items| == |w.items| && i <= |v.items|
    requires forall j :: 0 <= j < |v.items| ==>
      Redacted(r, Element(path, j), v.items[j]) == Redacted(r, Element(path, j), w.items[j])
    ensures RedactedItems(r, path, v, i, out) == RedactedItems(r, path, w, i, out)
    decreases |v.items| - i
  {
    if i < |v.items| {
      match Redacted(r, Element(path, i), v.items[i])
      case Err(_) =>
      case Ok(x) => AlikeItems(r, path, v, w, i + 1, out + [x]);
    }
  }

  lemma {:induction false} AlikeFields(r: Redactor, path: string, v: Value, w: Value, keys: seq<string>,
      out: map<string, Value>)
    requires v.Object? && w.Object? && (forall k :: k in keys ==> k in v.fields && k in w.fields)
    requires forall k :: k in keys ==> RedactedField(r, path, v, k) == RedactedField(r, path, w, k)
    ensures RedactedFields(r, path, v, keys, out) == RedactedFields(r, path, w, keys, out)
    decreases |keys|
  {
    if keys != [] {
      match RedactedField(r, path, v, keys[0])
      case Err(_) =>
      case Ok(x) => AlikeFields(r, path, v, w, keys[1..], out[keys[0] := x]);
    }
  }

  // A phone number leaves its hash and its last four digits behind, and nothing else: two payloads
  // that agree on those have the same output, or the same refusal.
  lemma {:induction false} OnlyHashAndLastFourShow(r: Redactor, path: string, v: Value, w: Value)
    requires Alike(r, v, w)
    ensures Redacted(r, path, v) == Redacted(r, path, w)
    decreases v
  {
    match v
    case Pointer(target) => OnlyHashAndLastFourShow(r, path, target, w.target);
    case List(items) =>
      forall j | 0 <= j < |items|
        ensures Redacted(r, Element(path, j), items[j]) == Redacted(r, Element(path, j), w.items[j])
      {
        OnlyHashAndLastFourShow(r, Element(path, j), items[j], w.items[j]);
      }
      AlikeItems(r, path, v, w, 0, []);
    case Object(fields) =>
      var keys := Order.SortedKeys(fields.Keys);
      forall k | k in keys ensures RedactedField(r, path, v, k) == RedactedField(r, path, w, k) {
        AlikeField(r, path, v, w, k);
      }
      AlikeFields(r, path, v, w, keys, map[]);
    case _ =>
  }

  lemma {:induction false} AlikeField(r: Redactor, path: string, v: Value, w: Value, k: string)
    requires v.Object? && w.Object? && Alike(r, v, w) && k in v.fields && k in w.fields
    ensures RedactedField(r, path, v, k) == RedactedField(r, path, w, k)
    decreases v, 0
  {
    if NormaliseKey(k) !in r.phoneKeys {
      OnlyHashAndLastFourShow(r, Child(path, k), v.fields[k], w.fields[k]);
    } else if AsString(v.fields[k]).Some? {
      SamePhoneSameRef(r, AsString(v.fields[k]).value, AsString(w.fields[k]).value);
    }
  }

  // ----- which refusal -----

  lemma {:induction false} FirstBadField(r: Redactor, path: string, v: Value, keys: seq<string>,
      out: map<string, Value>)
      returns (i: nat)
    requires v.Object? && (forall k :: k in keys ==> k in v.fields) && RedactedFields(r, path, v, keys, out).Err?
    ensures i < |keys| && RedactedField(r, path, v, keys[i]) == Err(RedactedFields(r, path, v, keys, out).error)
    ensures forall j :: 0 <= j < i ==> RedactedField(r, path, v, keys[j]).Ok?
    decreases |keys|
  {
    match RedactedField(r, path, v, keys[0])
    case Err(_) => i := 0;
    case Ok(x) =>
      var n := FirstBadField(r, path, v, keys[1..], out[keys[0] := x]);
      assert forall j :: 0 < j <= n ==> keys[j] == keys[1..][j - 1];
      i := n + 1;
  }

  // A refused map reports the first bad key in sorted order, whatever order the map gave them in.
  lemma RefusalIsTheFirstInOrder(r: Redactor, path: string, v: Value) returns (k: string)
    requires v.Object? && Redacted(r, path, v).Err?
    ensures k in v.fields && RedactedField(r, path, v, k) == Err(Redacted(r, path, v).error)
    ensures forall j :: j in v.fields && Order.Before(j, k) ==> RedactedField(r, path, v, j).Ok?
  {
    var keys := Order.SortedKeys(v.fields.Keys);
    var i := FirstBadField(r, path, v, keys, map[]);
    k := keys[i];
    assert k in keys;
    forall j | j in v.fields && Order.Before(j, k) ensures RedactedField(r, path, v, j).Ok? {
      assert j in keys;
      var n :| 0 <= n < |keys| && keys[n] == j;
      if n > i { Order.NotBoth(j, k); }
      Order.NotBoth(k, k);
    }
  }

  // ----- where the refusal says it is -----

  function ValueOf(digits: string): int {
    if digits == [] then 0 else 10 * ValueOf(digits[..|digits| - 1]) + (digits[|digits| - 1] as int - '0' as int)
  }

  // An index is shown by its decimal digits, without leading zeros.
  lemma {:induction false} DecimalReads(n: nat)
    ensures ValueOf(Decimal(n)) == n && (n > 0 ==> Decimal(n)[0] != '0')
    ensures Decimal(n) != [] && forall c :: c in Decimal(n) ==> '0' <= c <= '9'
  {
    var last := [('0' as int + n % 10) as char];
    if n >= 10 {
      DecimalReads(n / 10);
      assert Decimal(n)[..|Decimal(n)| - 1] == Decimal(n / 10) && Decimal(n)[|Decimal(n)| - 1] == last[0];
    } else {
      assert Decimal(n)[..0] == [];
    }
  }

  // The error names a value that is refused for this, by the way to it: keys behind dots, indices in
  // brackets, and a place of its own for the root.
  ghost predicate Faulty(r: Redactor, path: string, v: Value, e: RedactError)
    decreases v
  {
    var place := if path == "" then "(root)" else path;
    match v
    case Str(s) => e == Refused(
      if r.cookiePair(s) then "a google cookie" else if r.bearer(s) then "a token" else "a google account address",
      place)
      && (r.cookiePair(s) || r.bearer(s) || r.email(s))
    case Bytes => e == Refused("raw bytes", place)
    case OddMap(keyType) => e == NotStringKeyed(place, keyType)
    case Other(kind) => e == Unsupported(place, kind)
    case Pointer(target) => Faulty(r, path, target, e)
    case List(items) =>
      exists i :: 0 <= i < |items| && Faulty(r, place + "[" + Decimal(i) + "]", items[i], e)
                  && forall j :: 0 <= j < i ==> Acceptable(r, items[j])
    case Object(fields) => exists k :: k in fields && FaultyField(r, if path == "" then k else path + "." + k, v, k, e)
    case _ => false
  }

  ghost predicate FaultyField(r: Redactor, place: string, v: Value, k: string, e: RedactError)
    requires v.Object? && k in v.fields
    decreases v, 0
  {
    var norm := NormaliseKey(k);
    if norm in r.forbidden then e == Refused(r.forbidden[norm], place)
    else if norm in r.phoneKeys then AsString(v.fields[k]).None? && e == Refused("a phone number", place)
    else Faulty(r, place, v.fields[k], e)
  }

  lemma {:induction false} FirstBadItem(r: Redactor, path: string, v: Value, i: nat, out: seq<Value>) returns (n: nat)
    requires v.List? && i <= |v.items| && RedactedItems(r, path, v, i, out).Err?
    ensures i <= n < |v.items|
    ensures Redacted(r, Element(path, n), v.items[n]) == Err(RedactedItems(r, path, v, i, out).error)
    ensures forall j :: i <= j < n ==> Redacted(r, Element(path, j), v.items[j]).Ok?
    decreases |v.items| - i
  {
    match Redacted(r, Element(path, i), v.items[i])
    case Err(_) => n := i;
    case Ok(x) => n := FirstBadItem(r, path, v, i + 1, out + [x]);
  }

  // A refusal is of the first refused value on its way, and says where that is.
  lemma {:induction false} RefusalNamesItsPlace(r: Redactor, path: string, v: Value)
    requires Redacted(r, path, v).Err?
    ensures Faulty(r, path, v, Redacted(r, path, v).error)
    decreases v, 1
  {
    match v
    case Pointer(target) => RefusalNamesItsPlace(r, path, target);
    case List(items) =>
      var n := FirstBadItem(r, path, v, 0, []);
      RefusalNamesItsPlace(r, Element(path, n), items[n]);
      forall j | 0 <= j < n ensures Acceptable(r, items[j]) { AcceptsExactly(r, Element(path, j), items[j]); }
    case Object(fields) =>
      var k := RefusalIsTheFirstInOrder(r, path, v);
      FieldNamesItsPlace(r, path, v, k);
    case _ =>
  }

  lemma {:induction false} FieldNamesItsPlace(r: Redactor, path: string, v: Value, k: string)
    requires v.Object? && k in v.fields && RedactedField(r, path, v, k).Err?
    ensures FaultyField(r, if path == "" then k else path + "." + k, v, k, RedactedField(r, path, v, k).error)
    decreases v, 0
  {
    var norm := NormaliseKey(k);
    if norm !in r.forbidden && norm !in r.phoneKeys { RefusalNamesItsPlace(r, Child(path, k), v.fields[k]); }
  }
}
