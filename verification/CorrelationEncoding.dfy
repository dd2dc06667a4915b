/**
 The canonical call encoding: its decoder, unique decodability, and the message that is
 authenticated. Strings are byte strings with one character per byte.
 */
module CorrelationEncoding {
  import opened Basics
  import opened Decimals
  import opened Sorting
  import opened CorrelationNumber

  /** A parsed JSON value; a number keeps its text, an object is a finite map. */
  datatype JSON =
    | Null
    | Bool(b: bool)
    | Str(s: string)
    | Num(text: string)
    | Arr(items: seq<JSON>)
    | Obj(fields: map<string, JSON>)

  ghost predicate IsNumberText(t: string) { exists n :: WellFormed(n) && Text(n) == t }

  /** The exact number a number text denotes. */
  ghost function NumberValue(t: string): real
    requires IsNumberText(t)
  {
    var n :| WellFormed(n) && Text(n) == t;
    Value(n)
  }

  /** Every number in the value has a text the JSON grammar accepts. */
  ghost predicate Valid(v: JSON) {
    match v
    case Num(t) => IsNumberText(t)
    case Arr(items) => forall i :: 0 <= i < |items| ==> Valid(items[i])
    case Obj(fields) => forall k :: k in fields ==> Valid(fields[k])
    case _ => true
  }

  /** The same JSON value: numbers compare by value, objects without regard to key order. */
  ghost predicate Same(v: JSON, w: JSON)
    requires Valid(v) && Valid(w)
  {
    match v
    case Num(t) => w.Num? && NumberValue(t) == NumberValue(w.text)
    case Arr(items) =>
      w.Arr? && |items| == |w.items| && forall i :: 0 <= i < |items| ==> Same(items[i], w.items[i])
    case Obj(fields) =>
      w.Obj? && fields.Keys == w.fields.Keys && forall k :: k in fields ==> Same(fields[k], w.fields[k])
    case _ => v == w
  }

  // ---------- Key order ----------

  predicate IsLeast(k: string, s: set<string>) { k in s && forall x :: x in s ==> Before(k, x) }

  lemma {:induction false} LeastExists(s: set<string>) returns (k: string)
    requires s != {}
    ensures IsLeast(k, s)
    decreases |s|
  {
    k :| k in s;
    var rest := s - {k};
    if rest == {} {
      assert s == {k};
      BeforeTotal(k, k);
    } else {
      var l := LeastExists(rest);
      BeforeTotal(k, l);
      BeforeTotal(k, k);
      if Before(k, l) {
        forall x | x in s ensures Before(k, x) {
          if x != k { BeforeTransitive(k, l, x); }
        }
      } else {
        forall x | x in s ensures Before(l, x) {
          if x != k { assert x in rest; }
        }
        k := l;
      }
    }
  }

  lemma HasLeast(s: set<string>)
    requires s != {}
    ensures exists k :: IsLeast(k, s)
  {
    var k := LeastExists(s);
  }

  predicate Ascending(keys: seq<string>) {
    forall i, j :: 0 <= i < j < |keys| ==> Before(keys[i], keys[j]) && keys[i] != keys[j]
  }

  /** The keys of a set in ascending order. */
  ghost function SortedKeys(s: set<string>): (keys: seq<string>)
    ensures |keys| == |s| && Ascending(keys) && forall k :: k in keys <==> k in s
    decreases |s|
  {
    if s == {} then []
    else
      HasLeast(s);
      var k :| IsLeast(k, s);
      var rest := SortedKeys(s - {k});
      assert forall i :: 0 <= i < |rest| ==> rest[i] in rest;
      [k] + rest
  }

  /** There is only one ascending listing of a set. */
  lemma {:induction false} SortedUnique(keys: seq<string>, other: seq<string>)
    requires Ascending(keys) && Ascending(other) && forall k :: k in keys <==> k in other
    ensures keys == other
    decreases |keys|
  {
    if keys == [] {
      assert forall i :: 0 <= i < |other| ==> other[i] in other;
    } else {
      assert keys[0] in other;
      assert other[0] in keys;
      FirstIsLeast(keys, other[0]);
      FirstIsLeast(other, keys[0]);
      BeforeAntisymmetric(keys[0], other[0]);
      forall k ensures k in keys[1..] <==> k in other[1..] {
        InTail(keys, k);
        InTail(other, k);
      }
      SortedUnique(keys[1..], other[1..]);
      assert keys == [keys[0]] + keys[1..] && other == [other[0]] + other[1..];
    }
  }

  lemma FirstIsLeast(keys: seq<string>, k: string)
    requires Ascending(keys) && k in keys
    ensures Before(keys[0], k)
  {
    BeforeTotal(k, k);
  }

  lemma InTail(keys: seq<string>, k: string)
    requires Ascending(keys) && keys != []
    ensures k in keys[1..] <==> k in keys && k != keys[0]
  {
    assert keys == [keys[0]] + keys[1..];
  }

  // ---------- The encoding ----------

  function Framed(tag: char, n: nat, body: string): string { [tag] + Decimal(n) + ":" + body }

  ghost function Encode(v: JSON): string
    decreases v, 1
  {
    match v
    case Null => "z"
    case Bool(b) => if b then "t" else "f"
    case Str(s) => Framed('s', |s|, s)
    case Num(t) => Framed('n', |Normalize(t)|, Normalize(t))
    case Arr(items) => Framed('a', |items|, EncodeItems(items))
    case Obj(fields) => Framed('o', |fields|, EncodeFields(v, SortedKeys(fields.Keys)))
  }

  ghost function EncodeItems(items: seq<JSON>): string
    decreases items, 0
  {
    if items == [] then "" else Encode(items[0]) + EncodeItems(items[1..])
  }

  ghost function EncodeFields(v: JSON, keys: seq<string>): string
    requires v.Obj? && forall k :: k in keys ==> k in v.fields
    decreases v, 0, |keys|
  {
    if keys == [] then ""
    else Framed('s', |keys[0]|, keys[0]) + Encode(v.fields[keys[0]]) + EncodeFields(v, keys[1..])
  }

  // ---------- The decoder ----------

  datatype Parsed<T> = Fail | Done(value: T, rest: string)

  /** A decimal length, its colon, and what follows. */
  function DecodeLength(s: string): (r: Parsed<nat>)
    ensures r.Done? ==> |r.rest| < |s|
  {
    var i := IndexOf(s, {':'});
    if i >= 0 && Digits(s[..i]) then Done(Nat(s[..i]), s[i + 1..]) else Fail
  }

  /** A length and that many bytes. */
  function DecodeBytes(s: string): (r: Parsed<string>)
    ensures r.Done? ==> |r.rest| < |s|
  {
    var n := DecodeLength(s);
    if n.Done? && n.value <= |n.rest| then Done(n.rest[..n.value], n.rest[n.value..]) else Fail
  }

  function Decode(s: string): (r: Parsed<JSON>)
    ensures r.Done? ==> |r.rest| < |s|
    decreases |s|, 0
  {
    if s == "" then Fail
    else if s[0] == 'z' then Done(Null, s[1..])
    else if s[0] == 't' then Done(Bool(true), s[1..])
    else if s[0] == 'f' then Done(Bool(false), s[1..])
    else if s[0] == 's' || s[0] == 'n' then
      var bytes := DecodeBytes(s[1..]);
      if bytes.Fail? then Fail
      else Done(if s[0] == 's' then Str(bytes.value) else Num(bytes.value), bytes.rest)
    else if s[0] == 'a' then
      var n := DecodeLength(s[1..]);
      if n.Fail? then Fail
      else
        var items := DecodeItems(n.value, n.rest);
        if items.Fail? then Fail else Done(Arr(items.value), items.rest)
    else if s[0] == 'o' then
      var n := DecodeLength(s[1..]);
      if n.Fail? then Fail
      else
        var fields := DecodeFields(n.value, n.rest);
        if fields.Fail? then Fail else Done(Obj(fields.value), fields.rest)
    else Fail
  }

  function DecodeItems(n: nat, s: string): (r: Parsed<seq<JSON>>)
    ensures r.Done? ==> |r.rest| <= |s|
    decreases |s|, 1, n
  {
    if n == 0 then Done([], s)
    else
      var item := Decode(s);
      if item.Fail? then Fail
      else
        var rest := DecodeItems(n - 1, item.rest);
        if rest.Fail? then Fail else Done([item.value] + rest.value, rest.rest)
  }

  function DecodeFields(n: nat, s: string): (r: Parsed<map<string, JSON>>)
    ensures r.Done? ==> |r.rest| <= |s|
    decreases |s|, 1, n
  {
    if n == 0 then Done(map[], s)
    else if s == "" || s[0] != 's' then Fail
    else
      var key := DecodeBytes(s[1..]);
      if key.Fail? then Fail
      else
        var item := Decode(key.rest);
        if item.Fail? then Fail
        else
          var rest := DecodeFields(n - 1, item.rest);
          if rest.Fail? then Fail else Done(rest.value[key.value := item.value], rest.rest)
  }

  /** The value with every number in normal form: what the encoding keeps of it. */
  function Canon(v: JSON): JSON
    decreases v, 1
  {
    match v
    case Num(t) => Num(Normalize(t))
    case Arr(items) => Arr(CanonAll(items))
    case Obj(fields) => Obj(map k | k in fields :: Canon(fields[k]))
    case _ => v
  }

  function CanonAll(items: seq<JSON>): (r: seq<JSON>)
    ensures |r| == |items| && forall i :: 0 <= i < |items| ==> r[i] == Canon(items[i])
    decreases items, 0
  {
    if items == [] then [] else [Canon(items[0])] + CanonAll(items[1..])
  }

  /** The canonical values of the listed fields. */
  function CanonMap(fields: map<string, JSON>, keys: seq<string>): map<string, JSON>
    requires forall k :: k in keys ==> k in fields
  {
    map k | k in keys :: Canon(fields[k])
  }

  // ---------- Round trip ----------

  lemma LengthRoundTrip(n: nat, rest: string)
    ensures DecodeLength(Decimal(n) + ":" + rest) == Done(n, rest)
  {
    var d := Decimal(n);
    IndexAt(d, ':', rest, {':'});
    var s := d + [':'] + rest;
    assert s[..|d|] == d && s[|d| + 1..] == rest;
  }

  /** A framed text opens with its tag, then the length, then the body. */
  lemma FramedSplits(tag: char, n: nat, body: string, rest: string)
    ensures var s := Framed(tag, n, body) + rest;
            s != "" && s[0] == tag && DecodeLength(s[1..]) == Done(n, body + rest)
  {
    var s := Framed(tag, n, body) + rest;
    assert s[1..] == Decimal(n) + ":" + (body + rest);
    LengthRoundTrip(n, body + rest);
  }

  lemma BytesRoundTrip(tag: char, body: string, rest: string)
    ensures var s := Framed(tag, |body|, body) + rest;
            s != "" && s[0] == tag && DecodeBytes(s[1..]) == Done(body, rest)
  {
    FramedSplits(tag, |body|, body, rest);
    assert (body + rest)[..|body|] == body && (body + rest)[|body|..] == rest;
  }

  // One unfolding of the decoder per lemma.

  lemma DecodeScalar(v: JSON, s: string, rest: string)
    requires match v
             case Null => s == "z" + rest
             case Bool(b) => s == (if b then "t" else "f") + rest
             case Str(body) => s != "" && s[0] == 's' && DecodeBytes(s[1..]) == Done(body, rest)
             case Num(body) => s != "" && s[0] == 'n' && DecodeBytes(s[1..]) == Done(body, rest)
             case _ => false
    ensures Decode(s) == Done(v, rest)
  {
    if v.Null? || v.Bool? { assert s[1..] == rest; }
  }

  lemma DecodeArr(s: string, n: nat, body: string, items: seq<JSON>, rest: string)
    requires s != "" && s[0] == 'a' && DecodeLength(s[1..]) == Done(n, body) && DecodeItems(n, body) == Done(items, rest)
    ensures Decode(s) == Done(Arr(items), rest)
  {
  }

  lemma DecodeObj(s: string, n: nat, body: string, fields: map<string, JSON>, rest: string)
    requires s != "" && s[0] == 'o' && DecodeLength(s[1..]) == Done(n, body) && DecodeFields(n, body) == Done(fields, rest)
    ensures Decode(s) == Done(Obj(fields), rest)
  {
  }

  lemma ItemsStep(n: nat, s: string, item: JSON, middle: string, items: seq<JSON>, rest: string)
    requires Decode(s) == Done(item, middle) && DecodeItems(n, middle) == Done(items, rest)
    ensures DecodeItems(n + 1, s) == Done([item] + items, rest)
  {
  }

  lemma FieldsStep(n: nat, s: string, key: string, middle: string, item: JSON, tail: string,
                   fields: map<string, JSON>, rest: string)
    requires s != "" && s[0] == 's' && DecodeBytes(s[1..]) == Done(key, middle)
    requires Decode(middle) == Done(item, tail) && DecodeFields(n, tail) == Done(fields, rest)
    ensures DecodeFields(n + 1, s) == Done(fields[key := item], rest)
  {
  }

  lemma CanonFields(fields: map<string, JSON>, keys: seq<string>)
    requires forall k :: k in keys <==> k in fields
    ensures Canon(Obj(fields)) == Obj(CanonMap(fields, keys))
  {
    assert Canon(Obj(fields)).fields == CanonMap(fields, keys);
  }

  lemma EncodeShape(v: JSON)
    ensures v.Arr? ==> Encode(v) == Framed('a', |v.items|, EncodeItems(v.items)) && Canon(v) == Arr(CanonAll(v.items))
    ensures v.Obj? ==> Encode(v) == Framed('o', |v.fields|, EncodeFields(v, SortedKeys(v.fields.Keys)))
    ensures v.Str? ==> Encode(v) == Framed('s', |v.s|, v.s) && Canon(v) == v
    ensures v.Num? ==> Encode(v) == Framed('n', |Normalize(v.text)|, Normalize(v.text)) && Canon(v) == Num(Normalize(v.text))
    ensures v.Null? || v.Bool? ==> Canon(v) == v
  {
  }

  /** Decoding recovers the canonical value and leaves the bytes that follow. */
  lemma {:induction false} DecodeEncode(v: JSON, rest: string)
    ensures Decode(Encode(v) + rest) == Done(Canon(v), rest)
    decreases v, 1
  {
    EncodeShape(v);
    var s := Encode(v) + rest;
    match v {
      case Null => DecodeScalar(v, s, rest);
      case Bool(_) => DecodeScalar(v, s, rest);
      case Str(t) =>
        BytesRoundTrip('s', t, rest);
        DecodeScalar(v, s, rest);
      case Num(t) =>
        BytesRoundTrip('n', Normalize(t), rest);
        DecodeScalar(Num(Normalize(t)), s, rest);
      case Arr(items) =>
        var body := EncodeItems(items);
        FramedSplits('a', |items|, body, rest);
        DecodeEncodeItems(items, rest);
        DecodeArr(s, |items|, body + rest, CanonAll(items), rest);
      case Obj(fields) =>
        var keys := SortedKeys(fields.Keys);
        assert |keys| == |fields|;
        var body := EncodeFields(v, keys);
        FramedSplits('o', |fields|, body, rest);
        DecodeEncodeFields(v, keys, rest);
        DecodeObj(s, |fields|, body + rest, CanonMap(fields, keys), rest);
        CanonFields(fields, keys);
    }
  }

  lemma {:induction false} DecodeEncodeItems(items: seq<JSON>, rest: string)
    ensures DecodeItems(|items|, EncodeItems(items) + rest) == Done(CanonAll(items), rest)
    decreases items, 0
  {
    if items == [] {
      assert EncodeItems(items) + rest == rest;
    } else {
      var tail := EncodeItems(items[1..]) + rest;
      DecodeEncode(items[0], tail);
      DecodeEncodeItems(items[1..], rest);
      ItemsSplit(items, rest);
      ItemsJoin(items, EncodeItems(items) + rest, Encode(items[0]) + tail, tail, rest);
    }
  }

  lemma ItemsSplit(items: seq<JSON>, rest: string)
    requires items != []
    ensures EncodeItems(items) + rest == Encode(items[0]) + (EncodeItems(items[1..]) + rest)
  {
    Associate(Encode(items[0]), EncodeItems(items[1..]), rest);
  }

  lemma ItemsJoin(items: seq<JSON>, s: string, s': string, tail: string, rest: string)
    requires items != [] && s == s' && Decode(s') == Done(Canon(items[0]), tail)
    requires DecodeItems(|items[1..]|, tail) == Done(CanonAll(items[1..]), rest)
    ensures DecodeItems(|items|, s) == Done(CanonAll(items), rest)
  {
    ItemsStep(|items[1..]|, s, Canon(items[0]), tail, CanonAll(items[1..]), rest);
    assert |items[1..]| + 1 == |items|;
  }

  lemma {:induction false} DecodeEncodeFields(v: JSON, keys: seq<string>, rest: string)
    requires v.Obj? && Ascending(keys) && forall k :: k in keys ==> k in v.fields
    ensures DecodeFields(|keys|, EncodeFields(v, keys) + rest) == Done(CanonMap(v.fields, keys), rest)
    decreases v, 0, |keys|
  {
    if keys == [] {
      assert EncodeFields(v, keys) + rest == rest;
      assert CanonMap(v.fields, keys) == map[];
    } else {
      var tail := EncodeFields(v, keys[1..]) + rest;
      DecodeEncode(v.fields[keys[0]], tail);
      DecodeEncodeFields(v, keys[1..], rest);
      FieldsMore(v, keys, Encode(v.fields[keys[0]]) + tail, tail, rest);
    }
  }

  lemma FieldsMore(v: JSON, keys: seq<string>, middle: string, tail: string, rest: string)
    requires v.Obj? && Ascending(keys) && keys != [] && forall k :: k in keys ==> k in v.fields
    requires tail == EncodeFields(v, keys[1..]) + rest && middle == Encode(v.fields[keys[0]]) + tail
    requires Decode(middle) == Done(Canon(v.fields[keys[0]]), tail)
    requires DecodeFields(|keys[1..]|, tail) == Done(CanonMap(v.fields, keys[1..]), rest)
    ensures DecodeFields(|keys|, EncodeFields(v, keys) + rest) == Done(CanonMap(v.fields, keys), rest)
  {
    FieldsSplit(v, keys, rest);
    FieldsJoin(keys[0], |keys[1..]|, EncodeFields(v, keys) + rest, middle, Canon(v.fields[keys[0]]), tail, CanonMap(v.fields, keys[1..]), rest);
    FieldsExtend(v.fields, keys);
    assert |keys[1..]| + 1 == |keys|;
  }

  lemma FieldsJoin(key: string, n: nat, s: string, middle: string, x: JSON, tail: string, m: map<string, JSON>, rest: string)
    requires s == Framed('s', |key|, key) + middle && Decode(middle) == Done(x, tail) && DecodeFields(n, tail) == Done(m, rest)
    ensures DecodeFields(n + 1, s) == Done(m[key := x], rest)
  {
    BytesRoundTrip('s', key, middle);
    FieldsStep(n, s, key, middle, x, tail, m, rest);
  }

  lemma FieldsSplit(v: JSON, keys: seq<string>, rest: string)
    requires v.Obj? && keys != [] && forall k :: k in keys ==> k in v.fields
    ensures EncodeFields(v, keys) + rest ==
            Framed('s', |keys[0]|, keys[0]) + (Encode(v.fields[keys[0]]) + (EncodeFields(v, keys[1..]) + rest))
  {
    AssociateThree(Framed('s', |keys[0]|, keys[0]), Encode(v.fields[keys[0]]), EncodeFields(v, keys[1..]), rest);
  }

  lemma FieldsExtend(fields: map<string, JSON>, keys: seq<string>)
    requires keys != [] && Ascending(keys) && forall k :: k in keys ==> k in fields
    ensures CanonMap(fields, keys[1..])[keys[0] := Canon(fields[keys[0]])]
            == CanonMap(fields, keys)
  {
    assert forall k :: k in keys <==> k == keys[0] || k in keys[1..];
  }

  /** No encoding is a proper prefix of another, and equal encodings have equal canonical values. */
  lemma PrefixFree(v: JSON, w: JSON, x: string, y: string)
    requires Encode(v) + x == Encode(w) + y
    ensures Canon(v) == Canon(w) && x == y
  {
    DecodeEncode(v, x);
    DecodeEncode(w, y);
  }

  // ---------- Equal encodings and equal values ----------

  lemma SameNumberText(t: string, u: string)
    requires IsNumberText(t) && IsNumberText(u)
    ensures Normalize(t) == Normalize(u) <==> NumberValue(t) == NumberValue(u)
  {
    var m :| WellFormed(m) && Text(m) == t && NumberValue(t) == Value(m);
    var n :| WellFormed(n) && Text(n) == u && NumberValue(u) == Value(n);
    NormalFormIffSameValue(m, n);
  }

  /** The canonical form identifies exactly the values that are the same. */
  lemma {:induction false} CanonIffSame(v: JSON, w: JSON)
    requires Valid(v) && Valid(w)
    ensures Canon(v) == Canon(w) <==> Same(v, w)
    decreases v
  {
    match v {
      case Num(t) => if w.Num? { SameNumberText(t, w.text); }
      case Arr(items) =>
        if w.Arr? && |items| == |w.items| {
          forall i | 0 <= i < |items| ensures Canon(items[i]) == Canon(w.items[i]) <==> Same(items[i], w.items[i]) {
            CanonIffSame(items[i], w.items[i]);
          }
          AllEqual(items, w.items);
        }
      case Obj(fields) =>
        if w.Obj? {
          forall k | k in fields && k in w.fields ensures Canon(fields[k]) == Canon(w.fields[k]) <==> Same(fields[k], w.fields[k]) {
            CanonIffSame(fields[k], w.fields[k]);
          }
          FieldsEqual(fields, w.fields);
        }
      case _ =>
    }
  }

  lemma AllEqual(items: seq<JSON>, others: seq<JSON>)
    requires |items| == |others|
    ensures CanonAll(items) == CanonAll(others) <==> forall i :: 0 <= i < |items| ==> Canon(items[i]) == Canon(others[i])
  {
    var a, b := CanonAll(items), CanonAll(others);
    if a == b {
      forall i | 0 <= i < |items| ensures Canon(items[i]) == Canon(others[i]) { assert a[i] == b[i]; }
    }
  }

  lemma FieldsEqual(fields: map<string, JSON>, others: map<string, JSON>)
    ensures Canon(Obj(fields)) == Canon(Obj(others)) <==>
            fields.Keys == others.Keys && forall k :: k in fields && k in others ==> Canon(fields[k]) == Canon(others[k])
  {
    var a, b := Canon(Obj(fields)).fields, Canon(Obj(others)).fields;
    assert a.Keys == fields.Keys && b.Keys == others.Keys;
    assert forall k :: k in fields ==> a[k] == Canon(fields[k]);
    assert forall k :: k in others ==> b[k] == Canon(others[k]);
  }

  /** Values with the same canonical form have the same encoding. */
  lemma {:induction false} EncodeCanon(v: JSON, w: JSON)
    requires Canon(v) == Canon(w)
    ensures Encode(v) == Encode(w)
    decreases v, 1
  {
    EncodeShape(v);
    EncodeShape(w);
    match v {
      case Arr(items) => EncodeCanonItems(items, w.items);
      case Obj(fields) =>
        FieldsEqual(fields, w.fields);
        assert |fields.Keys| == |fields| && |w.fields.Keys| == |w.fields|;
        EncodeCanonFields(v, w, SortedKeys(fields.Keys));
      case _ =>
    }
  }

  lemma {:induction false} EncodeCanonItems(items: seq<JSON>, others: seq<JSON>)
    requires CanonAll(items) == CanonAll(others)
    ensures EncodeItems(items) == EncodeItems(others)
    decreases items, 0
  {
    assert |CanonAll(items)| == |CanonAll(others)|;
    if items != [] {
      AllEqual(items, others);
      EncodeCanon(items[0], others[0]);
      AllEqual(items[1..], others[1..]);
      EncodeCanonItems(items[1..], others[1..]);
    }
  }

  lemma {:induction false} EncodeCanonFields(v: JSON, w: JSON, keys: seq<string>)
    requires v.Obj? && w.Obj? && forall k :: k in keys ==> k in v.fields && k in w.fields
    requires forall k :: k in v.fields && k in w.fields ==> Canon(v.fields[k]) == Canon(w.fields[k])
    ensures EncodeFields(v, keys) == EncodeFields(w, keys)
    decreases v, 0, |keys|
  {
    if keys != [] {
      EncodeCanon(v.fields[keys[0]], w.fields[keys[0]]);
      EncodeCanonFields(v, w, keys[1..]);
    }
  }

  lemma EncodeIffCanon(v: JSON, w: JSON)
    ensures Encode(v) == Encode(w) <==> Canon(v) == Canon(w)
  {
    if Encode(v) == Encode(w) { PrefixFree(v, w, "", ""); }
    if Canon(v) == Canon(w) { EncodeCanon(v, w); }
  }

  /** Two valid values encode equally exactly when they are the same JSON value. */
  lemma EncodeIffSame(v: JSON, w: JSON)
    requires Valid(v) && Valid(w)
    ensures Encode(v) == Encode(w) <==> Same(v, w)
  {
    EncodeIffCanon(v, w);
    CanonIffSame(v, w);
  }

  // ---------- The authenticated message ----------

  const CORRELATION_VERSION := "tf-call-v1"
  const FRICTION_SOURCE := "huyang"

  function StrItems(fields: seq<string>): (r: seq<JSON>)
    ensures |r| == |fields| && forall i :: 0 <= i < |r| ==> r[i] == Str(fields[i])
  {
    seq(|fields|, i requires 0 <= i < |fields| => Str(fields[i]))
  }

  /** The message bytes as they are assembled: a hand-written array header, the encodings of
      the fields and the arguments' own encoding. */
  ghost function MessageOf(fields: seq<string>, arguments: JSON): string {
    "a5:" + EncodeItems(StrItems(fields)) + Encode(arguments)
  }

  function MessageFields(tool: string): seq<string> { [CORRELATION_VERSION, "mcp", FRICTION_SOURCE, tool] }

  ghost function Message(tool: string, arguments: JSON): string { MessageOf(MessageFields(tool), arguments) }

  lemma {:induction false} EncodeItemsAppend(xs: seq<JSON>, ys: seq<JSON>)
    ensures EncodeItems(xs + ys) == EncodeItems(xs) + EncodeItems(ys)
    decreases |xs|
  {
    if xs == [] {
      assert xs + ys == ys;
    } else {
      assert (xs + ys)[1..] == xs[1..] + ys;
      EncodeItemsAppend(xs[1..], ys);
      Associate(Encode(xs[0]), EncodeItems(xs[1..]), EncodeItems(ys));
    }
  }

  lemma EncodeItemsOne(v: JSON)
    ensures EncodeItems([v]) == Encode(v)
  {
    assert [v][1..] == [];
  }

  /** The message is the encoding of the array of the four fields and the arguments. */
  lemma MessageIsEncoding(fields: seq<string>, arguments: JSON)
    requires |fields| == 4
    ensures MessageOf(fields, arguments) == Encode(Arr(StrItems(fields) + [arguments]))
  {
    var items := StrItems(fields) + [arguments];
    EncodeShape(Arr(items));
    EncodeItemsAppend(StrItems(fields), [arguments]);
    EncodeItemsOne(arguments);
    assert Decimal(5) == "5";
    Associate("a5:", EncodeItems(StrItems(fields)), Encode(arguments));
    assert ['a'] + "5" + ":" == "a5:";
  }

  lemma CanonOfItems(fields: seq<string>, arguments: JSON)
    ensures CanonAll(StrItems(fields) + [arguments]) == StrItems(fields) + [Canon(arguments)]
  {
    var items := StrItems(fields) + [arguments];
    var r := CanonAll(items);
    forall i | 0 <= i < |items| ensures r[i] == (StrItems(fields) + [Canon(arguments)])[i] {
      assert r[i] == Canon(items[i]);
    }
  }

  lemma StrItemsInjective(fields: seq<string>, v: JSON, fields': seq<string>, v': JSON)
    requires |fields| == |fields'|
    ensures StrItems(fields) + [v] == StrItems(fields') + [v'] <==> fields == fields' && v == v'
  {
    var xs, ys := StrItems(fields) + [v], StrItems(fields') + [v'];
    if xs == ys {
      assert xs[|fields|] == v && ys[|fields|] == v';
      forall i | 0 <= i < |fields| ensures fields[i] == fields'[i] {
        assert xs[i] == Str(fields[i]) && ys[i] == Str(fields'[i]);
      }
    }
  }

  lemma MessageValueCanon(fields: seq<string>, arguments: JSON, fields': seq<string>, arguments': JSON)
    requires |fields| == |fields'|
    ensures Canon(Arr(StrItems(fields) + [arguments])) == Canon(Arr(StrItems(fields') + [arguments'])) <==>
            fields == fields' && Canon(arguments) == Canon(arguments')
  {
    CanonOfItems(fields, arguments);
    CanonOfItems(fields', arguments');
    StrItemsInjective(fields, Canon(arguments), fields', Canon(arguments'));
  }

  /** Equal messages come from the same tool and the same arguments, and conversely. */
  lemma MessageInjective(tool: string, arguments: JSON, tool': string, arguments': JSON)
    requires Valid(arguments) && Valid(arguments')
    ensures Message(tool, arguments) == Message(tool', arguments') <==> tool == tool' && Same(arguments, arguments')
  {
    var f, g := MessageFields(tool), MessageFields(tool');
    MessageIsEncoding(f, arguments);
    MessageIsEncoding(g, arguments');
    EncodeIffCanon(Arr(StrItems(f) + [arguments]), Arr(StrItems(g) + [arguments']));
    MessageValueCanon(f, arguments, g, arguments');
    CanonIffSame(arguments, arguments');
    assert f[3] == tool && g[3] == tool';
  }

  // ---------- appendCorrelationValue ----------

  lemma EncodeItemsSnoc(items: seq<JSON>, i: nat)
    requires i < |items|
    ensures EncodeItems(items[..i + 1]) == EncodeItems(items[..i]) + Encode(items[i])
  {
    assert items[..i + 1] == items[..i] + [items[i]];
    EncodeItemsAppend(items[..i], [items[i]]);
    EncodeItemsOne(items[i]);
  }

  lemma {:induction false} EncodeFieldsSnoc(v: JSON, keys: seq<string>, i: nat)
    requires v.Obj? && i < |keys| && forall k :: k in keys ==> k in v.fields
    ensures EncodeFields(v, keys[..i + 1])
            == EncodeFields(v, keys[..i]) + (Framed('s', |keys[i]|, keys[i]) + Encode(v.fields[keys[i]]))
    decreases i
  {
    if i == 0 {
      assert keys[..1][1..] == [] && keys[..0] == [];
    } else {
      EncodeFieldsSnoc(v, keys[1..], i - 1);
      assert keys[1..][..i] == keys[..i + 1][1..] && keys[1..][..i - 1] == keys[..i][1..];
      Associate(Framed('s', |keys[0]|, keys[0]) + Encode(v.fields[keys[0]]), EncodeFields(v, keys[..i][1..]),
                 Framed('s', |keys[i]|, keys[i]) + Encode(v.fields[keys[i]]));
    }
  }

  lemma KeyOrder()
    ensures TotalPreorder(Before)
  {
    forall a, b ensures Before(a, b) || Before(b, a) { BeforeTotal(a, b); }
    forall a, b, c | Before(a, b) && Before(b, c) ensures Before(a, c) { BeforeTransitive(a, b, c); }
  }

  lemma SortedAscending(keys: seq<string>)
    requires InOrder(keys, Before) && Distinct(keys)
    ensures Ascending(keys)
  {
    forall i, j | 0 <= i < j < |keys| ensures Before(keys[i], keys[j]) && keys[i] != keys[j] {}
  }

  /** Collects the keys of an object and sorts them. */
  method CollectKeys(fields: map<string, JSON>) returns (keys: seq<string>)
    ensures keys == SortedKeys(fields.Keys)
  {
    var listed: seq<string> := [];
    var left := fields.Keys;
    while left != {}
      invariant left <= fields.Keys && Distinct(listed)
      invariant forall k :: k in listed <==> k in fields.Keys && k !in left
      decreases |left|
    {
      var k :| k in left;
      listed := listed + [k];
      left := left - {k};
    }
    KeyOrder();
    keys := Sort(listed, Before);
    PermutedMembers(keys, listed);
    PermutedDistinct(keys, listed);
    SortedAscending(keys);
    SortedUnique(keys, SortedKeys(fields.Keys));
  }

  function AppendFramed(out: string, tag: char, n: nat): string { out + [tag] + Decimal(n) + ":" }

  lemma AppendFramedBody(out: string, tag: char, n: nat, body: string)
    ensures AppendFramed(out, tag, n) + body == out + Framed(tag, n, body)
  {
    AssociateThree(out, [tag] + Decimal(n), ":", body);
  }

  /** Appends the encoding of a value to the buffer. */
  method AppendValue(out: string, v: JSON) returns (r: string)
    ensures r == out + Encode(v)
    decreases v, 1
  {
    EncodeShape(v);
    match v {
      case Null => r := out + "z";
      case Bool(b) => r := out + (if b then "t" else "f");
      case Str(s) =>
        r := AppendFramed(out, 's', |s|) + s;
        AppendFramedBody(out, 's', |s|, s);
      case Num(t) =>
        var number := Normalize(t);
        r := AppendFramed(out, 'n', |number|) + number;
        AppendFramedBody(out, 'n', |number|, number);
      case Arr(items) =>
        r := AppendItems(AppendFramed(out, 'a', |items|), items);
        AppendFramedBody(out, 'a', |items|, EncodeItems(items));
      case Obj(fields) =>
        var keys := CollectKeys(fields);
        assert |keys| == |fields|;
        r := AppendFields(AppendFramed(out, 'o', |keys|), v, keys);
        AppendFramedBody(out, 'o', |keys|, EncodeFields(v, keys));
    }
  }

  /** The loop over the elements of an array. */
  method AppendItems(out: string, items: seq<JSON>) returns (r: string)
    ensures r == out + EncodeItems(items)
    decreases items, 0
  {
    r := out;
    for i := 0 to |items|
      invariant r == out + EncodeItems(items[..i])
    {
      EncodeItemsSnoc(items, i);
      Associate(out, EncodeItems(items[..i]), Encode(items[i]));
      r := AppendValue(r, items[i]);
    }
    assert items[..|items|] == items;
  }

  /** The loop over the sorted keys of an object. */
  method AppendFields(out: string, v: JSON, keys: seq<string>) returns (r: string)
    requires v.Obj? && forall k :: k in keys ==> k in v.fields
    ensures r == out + EncodeFields(v, keys)
    decreases v, 0
  {
    r := out;
    for i := 0 to |keys|
      invariant r == out + EncodeFields(v, keys[..i])
    {
      ghost var done := EncodeFields(v, keys[..i]);
      EncodeFieldsSnoc(v, keys, i);
      AssociateThree(out, done, Framed('s', |keys[i]|, keys[i]), Encode(v.fields[keys[i]]));
      Associate(done, Framed('s', |keys[i]|, keys[i]), Encode(v.fields[keys[i]]));
      AppendFramedBody(r, 's', |keys[i]|, keys[i]);
      r := AppendFramed(r, 's', |keys[i]|) + keys[i];
      r := AppendValue(r, v.fields[keys[i]]);
    }
    assert keys[..|keys|] == keys;
  }

  /** The message assembly of correlateMCPCallWithKeyLoader. */
  method AssembleMessage(tool: string, arguments: JSON) returns (message: string)
    ensures message == Message(tool, arguments)
  {
    var fields := MessageFields(tool);
    message := "a5:";
    for i := 0 to |fields|
      invariant message == "a5:" + EncodeItems(StrItems(fields)[..i])
    {
      EncodeItemsSnoc(StrItems(fields), i);
      Associate("a5:", EncodeItems(StrItems(fields)[..i]), Encode(Str(fields[i])));
      message := AppendValue(message, Str(fields[i]));
    }
    assert StrItems(fields)[..|fields|] == StrItems(fields);
    var encoded := AppendValue("", arguments);
    assert encoded == Encode(arguments);
    message := message + encoded;
  }
}
