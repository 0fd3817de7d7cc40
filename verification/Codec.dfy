/** The JSON/CBOR stream codec and its short key names (stream_codec.rs). */
module Codec {
  import opened Basics

  type JsonInt = n: int | -0x8000_0000_0000_0000 <= n <= U64_MAX

  /** `serde_json::Value`: numbers are u64, i64 or finite f64; an object is a map whatever its order. */
  datatype Json =
    | Null
    | Bool(b: bool)
    | Integer(n: JsonInt)
    | Float(f: real)
    | String(s: string)
    | Array(items: seq<Json>)
    | Object(fields: map<string, Json>)

  datatype F64 = Finite(value: real) | NonFinite

  /** `serde_cbor::Value`. */
  datatype Cbor =
    | CNull
    | CBool(b: bool)
    | CInteger(n: int)
    | CFloat(f: F64)
    | CBytes(bytes: seq<bv8>)
    | CText(s: string)
    | CArray(items: seq<Cbor>)
    | CMap(fields: map<Cbor, Cbor>)
    | CTag(tag: nat, inner: Cbor)
    | COther

  function Shorten(key: string): string {
    match key
    case "command" => "cmd"
    case "query" => "q"
    case "data" => "d"
    case "pattern" => "p"
    case "format" => "f"
    case "events" => "ev"
    case "metrics" => "mt"
    case "meta" => "m"
    case "source" => "src"
    case _ => key
  }

  function Expand(key: string): string {
    match key
    case "d" => "data"
    case "p" => "pattern"
    case "f" => "format"
    case "ev" => "events"
    case "mt" => "metrics"
    case "m" => "meta"
    case "src" => "source"
    case _ => key
  }

  const ALIASES: set<string> := {"command", "query", "d", "p", "f", "ev", "mt", "m", "src"}

  /** No object key at any depth is an alias. */
  ghost predicate Normal(v: Json) {
    match v
    case Array(items) => forall i :: 0 <= i < |items| ==> Normal(items[i])
    case Object(fields) => forall k :: k in fields ==> k !in ALIASES && Normal(fields[k])
    case _ => true
  }

  /** An entry of the encoded map comes from some field; with colliding keys, from any one of them. */
  ghost predicate Encodes(v: Json, c: Cbor)
    decreases v
  {
    match v
    case Null => c == CNull
    case Bool(b) => c == CBool(b)
    case Integer(n) => c == CInteger(n)
    case Float(f) => c == CFloat(Finite(f))
    case String(s) => c == CText(s)
    case Array(items) =>
      c.CArray? && |c.items| == |items| && forall i :: 0 <= i < |items| ==> Encodes(items[i], c.items[i])
    case Object(fields) =>
      c.CMap? && (forall k :: k in fields ==> CText(Shorten(k)) in c.fields) &&
      forall key :: key in c.fields ==>
        exists k :: k in fields && key == CText(Shorten(k)) && Encodes(fields[k], c.fields[key])
  }

  /** Strings in the order in which a sorted map visits them. */
  predicate AtMost(a: string, b: string) {
    a == "" || (b != "" && (a[0] < b[0] || (a[0] == b[0] && AtMost(a[1..], b[1..]))))
  }

  lemma {:induction false} AtMostOrder(a: string, b: string, c: string)
    ensures AtMost(a, a) && (AtMost(a, b) || AtMost(b, a))
    ensures AtMost(a, b) && AtMost(b, a) ==> a == b
    ensures AtMost(a, b) && AtMost(b, c) ==> AtMost(a, c)
    decreases |a| + |b| + |c|
  {
    if a != "" {
      AtMostOrder(a[1..], if b == "" then b else b[1..], if c == "" then c else c[1..]);
      assert a == [a[0]] + a[1..] && (b != "" ==> b == [b[0]] + b[1..]);
    }
  }

  /** Of the fields whose names shorten alike, the one that is inserted last and so wins. */
  ghost predicate Greatest(fields: map<string, Json>, k: string) {
    k in fields && forall o :: o in fields && Shorten(o) == Shorten(k) ==> AtMost(o, k)
  }

  /** `json_to_cbor` over a sorted map: an entry comes from the greatest of the colliding fields. */
  ghost predicate SortedEncodes(v: Json, c: Cbor)
    decreases v
  {
    match v
    case Array(items) =>
      c.CArray? && |c.items| == |items| && forall i :: 0 <= i < |items| ==> SortedEncodes(items[i], c.items[i])
    case Object(fields) =>
      c.CMap? && (forall k :: k in fields ==> CText(Shorten(k)) in c.fields) &&
      forall key :: key in c.fields ==>
        exists k :: Greatest(fields, k) && key == CText(Shorten(k)) && SortedEncodes(fields[k], c.fields[key])
    case _ => Encodes(v, c)
  }

  /** The name under which a field comes back. */
  function Canonical(key: string): string {
    Expand(Shorten(key))
  }

  ghost function LongKeys(fields: map<string, Json>): set<string> {
    set k | k in fields :: Canonical(k)
  }

  lemma SameShort(a: string, b: string)
    requires Canonical(a) == Canonical(b)
    ensures Shorten(a) == Shorten(b)
  {
  }

  lemma {:induction false} GreatestExists(fields: map<string, Json>, some: string, among: set<string>)
    returns (k: string)
    requires some in among && among <= fields.Keys
    ensures k in among && Shorten(k) == Shorten(some)
    ensures forall o :: o in among && Shorten(o) == Shorten(some) ==> AtMost(o, k)
    decreases |among|
  {
    hide Shorten, AtMost;
    var others := set o | o in among && o != some && Shorten(o) == Shorten(some);
    if others == {} {
      k := some;
      AtMostOrder(k, k, k);
      forall o | o in among && Shorten(o) == Shorten(some) ensures AtMost(o, k) {
        assert o != some ==> o in others;
      }
    } else {
      var next :| next in others;
      assert others < among;
      Fewer(others, among);
      k := GreatestExists(fields, next, others);
      AtMostOrder(some, k, k);
      if AtMost(k, some) {
        forall o | o in among && Shorten(o) == Shorten(some) ensures AtMost(o, some) {
          AtMostOrder(o, k, some);
          AtMostOrder(o, o, o);
          assert o != some ==> o in others;
        }
        k := some;
      } else {
        forall o | o in among && Shorten(o) == Shorten(some) ensures AtMost(o, k) {
          assert o != some ==> o in others;
        }
      }
    }
  }

  lemma {:induction false} Fewer(a: set<string>, b: set<string>)
    requires a < b
    ensures |a| < |b|
  {
    var rest := b - a;
    assert b == a + rest && rest != {};
  }

  lemma WinnerExists(fields: map<string, Json>, long: string)
    requires long in LongKeys(fields)
    ensures exists k :: Greatest(fields, k) && Canonical(k) == long
  {
    hide Shorten, Expand, AtMost;
    var some :| some in fields && Canonical(some) == long;
    var k := GreatestExists(fields, some, fields.Keys);
    assert Greatest(fields, k);
  }

  ghost function WinnerOf(fields: map<string, Json>, long: string): (k: string)
    requires long in LongKeys(fields)
    ensures Greatest(fields, k) && Canonical(k) == long
  {
    WinnerExists(fields, long);
    var k :| Greatest(fields, k) && Canonical(k) == long;
    k
  }

  /** What a value becomes on its way through CBOR and back. */
  ghost function Canon(v: Json): Json
    decreases v
  {
    match v
    case Array(items) => Array(seq(|items|, i requires 0 <= i < |items| => Canon(items[i])))
    case Object(fields) => Object(map long | long in LongKeys(fields) :: Canon(fields[WinnerOf(fields, long)]))
    case _ => v
  }

  /** `{:?}` of a map key that is not text. */
  type Debug = Cbor -> string

  function LongKey(key: Cbor, debug: Debug): string {
    Expand(if key.CText? then key.s else debug(key))
  }

  predicate InJsonRange(n: int) {
    -0x8000_0000_0000_0000 <= n <= U64_MAX
  }

  function ByteArray(bytes: seq<bv8>): Json {
    Array(seq(|bytes|, i requires 0 <= i < |bytes| => Integer(bytes[i] as int)))
  }

  ghost predicate Decodes(c: Cbor, debug: Debug, v: Json)
    decreases c
  {
    match c
    case CNull => v == Null
    case CBool(b) => v == Bool(b)
    case CInteger(n) => InJsonRange(n) && v == Integer(n)
    case CFloat(Finite(r)) => v == Float(r)
    case CFloat(NonFinite) => v == Null
    case CBytes(bytes) => v == ByteArray(bytes)
    case CText(s) => v == String(s)
    case CArray(items) =>
      v.Array? && |v.items| == |items| && forall i :: 0 <= i < |items| ==> Decodes(items[i], debug, v.items[i])
    case CMap(fields) =>
      v.Object? && (forall key :: key in fields ==> LongKey(key, debug) in v.fields) &&
      forall k :: k in v.fields ==>
        exists key :: key in fields && k == LongKey(key, debug) && Decodes(fields[key], debug, v.fields[k])
    case CTag(_, inner) => Decodes(inner, debug, v)
    case COther => v == Null
  }

  /** Every integer at a value position fits a JSON number; `json!` gives up on any other. */
  ghost predicate Decodable(c: Cbor) {
    match c
    case CInteger(n) => InJsonRange(n)
    case CArray(items) => forall i :: 0 <= i < |items| ==> Decodable(items[i])
    case CMap(fields) => forall key :: key in fields ==> Decodable(fields[key])
    case CTag(_, inner) => Decodable(inner)
    case _ => true
  }

  // ---- Names on the wire --------------------------------------------------

  /** The nine long names and what each becomes. */
  const WIRE: map<string, string> := map[
    "command" := "cmd", "query" := "q", "data" := "d", "pattern" := "p", "format" := "f", "events" := "ev",
    "metrics" := "mt", "meta" := "m", "source" := "src"]

  /** No map key at any depth is one of the long names, or anything but text. */
  ghost predicate OnWire(c: Cbor) {
    match c
    case CArray(items) => forall i :: 0 <= i < |items| ==> OnWire(items[i])
    case CMap(fields) => forall key :: key in fields ==> key.CText? && key.s !in WIRE && OnWire(fields[key])
    case _ => true
  }

  lemma WireName(key: string)
    ensures Shorten(key) == if key in WIRE then WIRE[key] else key
    ensures Shorten(key) !in WIRE
  {
  }

  /** An encoding never contains a long name. */
  lemma {:induction false} EncodedIsOnWire(v: Json, c: Cbor)
    requires Encodes(v, c)
    ensures OnWire(c)
    decreases v
  {
    hide Shorten;
    match v
    case Array(items) =>
      forall i | 0 <= i < |items| ensures OnWire(c.items[i]) {
        EncodedIsOnWire(items[i], c.items[i]);
      }
    case Object(fields) =>
      forall key | key in c.fields ensures key.CText? && key.s !in WIRE && OnWire(c.fields[key]) {
        var k :| k in fields && key == CText(Shorten(k)) && Encodes(fields[k], c.fields[key]);
        WireName(k);
        EncodedIsOnWire(fields[k], c.fields[key]);
      }
    case _ =>
  }

  /** An encoded object has exactly the wire names of its fields. */
  lemma ObjectNames(v: Json, c: Cbor)
    requires Encodes(v, c) && v.Object?
    ensures c.CMap? && c.fields.Keys == set k | k in v.fields :: CText(if k in WIRE then WIRE[k] else k)
  {
    forall k: string ensures Shorten(k) == if k in WIRE then WIRE[k] else k {
      WireName(k);
    }
    hide Shorten;
  }

  // ---- The conversions ----------------------------------------------------

  /** The keys not yet visited sort after those that were. */
  ghost predicate Visiting(fields: map<string, Json>, todo: set<string>) {
    todo <= fields.Keys && forall a, b :: a in fields && a !in todo && b in todo ==> AtMost(a, b)
  }

  ghost predicate GreatestSofar(fields: map<string, Json>, todo: set<string>, k: string) {
    k in fields && k !in todo && forall o :: o in fields && o !in todo && Shorten(o) == Shorten(k) ==> AtMost(o, k)
  }

  ghost predicate Placed(fields: map<string, Json>, todo: set<string>, out: map<Cbor, Cbor>, key: Cbor) {
    key in out ==>
      exists k :: GreatestSofar(fields, todo, k) && key == CText(Shorten(k)) && SortedEncodes(fields[k], out[key])
  }

  ghost predicate Sofar(fields: map<string, Json>, todo: set<string>, out: map<Cbor, Cbor>) {
    (forall k :: k in fields && k !in todo ==> CText(Shorten(k)) in out) && forall key :: Placed(fields, todo, out, key)
  }

  lemma VisitNext(fields: map<string, Json>, todo: set<string>, out: map<Cbor, Cbor>, k: string, value: Cbor)
    requires Visiting(fields, todo) && Sofar(fields, todo, out) && k in todo && SortedEncodes(fields[k], value)
    requires forall o :: o in todo ==> AtMost(k, o)
    ensures Visiting(fields, todo - {k}) && Sofar(fields, todo - {k}, out[CText(Shorten(k)) := value])
  {
    hide AtMost, Shorten, SortedEncodes;
    var rest, more := todo - {k}, out[CText(Shorten(k)) := value];
    assert GreatestSofar(fields, rest, k) by { AtMostOrder(k, k, k); }
    forall key ensures Placed(fields, rest, more, key) {
      assert Placed(fields, todo, out, key);
      if key in out && key != CText(Shorten(k)) {
        var o :| GreatestSofar(fields, todo, o) && key == CText(Shorten(o)) && SortedEncodes(fields[o], out[key]);
        assert GreatestSofar(fields, rest, o);
      }
    }
  }

  lemma AllVisited(fields: map<string, Json>, out: map<Cbor, Cbor>)
    requires Sofar(fields, {}, out)
    ensures SortedEncodes(Object(fields), CMap(out))
  {
    hide AtMost, Shorten;
    forall key | key in out
      ensures exists k :: Greatest(fields, k) && key == CText(Shorten(k)) && SortedEncodes(fields[k], out[key])
    {
      assert Placed(fields, {}, out, key);
      var k :| GreatestSofar(fields, {}, k) && key == CText(Shorten(k)) && SortedEncodes(fields[k], out[key]);
      assert Greatest(fields, k);
    }
  }

  /** The first key of a sorted map. */
  method First(todo: set<string>) returns (k: string)
    requires todo != {}
    ensures k in todo && forall o :: o in todo ==> AtMost(k, o)
  {
    k :| k in todo;
    var rest := todo - {k};
    AtMostOrder(k, k, k);
    while rest != {}
      invariant rest <= todo && k in todo && forall o :: o in todo - rest ==> AtMost(k, o)
      decreases |rest|
    {
      var o :| o in rest;
      AtMostOrder(k, o, o);
      if !AtMost(k, o) {
        forall p | p in todo - rest ensures AtMost(o, p) {
          AtMostOrder(o, k, p);
        }
        AtMostOrder(o, o, o);
        k := o;
      }
      rest := rest - {o};
    }
  }

  /** `json_to_cbor`: fields are inserted in the order of their names. */
  method JsonToCbor(v: Json) returns (c: Cbor)
    ensures SortedEncodes(v, c)
    decreases v, 0
  {
    match v
    case Null => c := CNull;
    case Bool(b) => c := CBool(b);
    case Integer(n) => c := CInteger(n);
    case Float(f) => c := CFloat(Finite(f));
    case String(s) => c := CText(s);
    case Array(items) =>
      var out := [];
      for i := 0 to |items|
        invariant |out| == i && forall j :: 0 <= j < i ==> SortedEncodes(items[j], out[j])
      {
        var item := JsonToCbor(items[i]);
        out := out + [item];
      }
      c := CArray(out);
    case Object(fields) =>
      var out: map<Cbor, Cbor> := map[];
      var todo := fields.Keys;
      while todo != {}
        invariant Visiting(fields, todo) && Sofar(fields, todo, out)
        decreases |todo|
      {
        var k := First(todo);
        var value := JsonToCbor(fields[k]);
        VisitNext(fields, todo, out, k, value);
        todo := todo - {k};
        out := out[CText(Shorten(k)) := value];
      }
      AllVisited(fields, out);
      c := CMap(out);
  }

  /** `cbor_to_json`; `None` where `json!` panics on an integer no JSON number can hold. */
  method CborToJson(c: Cbor, debug: Debug) returns (v: Option<Json>)
    ensures v.Some? <==> Decodable(c)
    ensures v.Some? ==> Decodes(c, debug, v.value)
    decreases c, 0
  {
    match c
    case CNull => v := Some(Null);
    case CBool(b) => v := Some(Bool(b));
    case CInteger(n) => v := if InJsonRange(n) then Some(Integer(n)) else None;
    case CFloat(Finite(r)) => v := Some(Float(r));
    case CFloat(NonFinite) => v := Some(Null);
    case CBytes(bytes) => v := Some(ByteArray(bytes));
    case CText(s) => v := Some(String(s));
    case CArray(items) =>
      var out := [];
      for i := 0 to |items|
        invariant |out| == i && forall j :: 0 <= j < i ==> Decodable(items[j]) && Decodes(items[j], debug, out[j])
      {
        var item := CborToJson(items[i], debug);
        if item.None? {
          return None;
        }
        out := out + [item.value];
      }
      v := Some(Array(out));
    case CMap(fields) =>
      var out: map<string, Json> := map[];
      var todo := fields.Keys;
      while todo != {}
        invariant todo <= fields.Keys
        invariant forall key :: key in fields && key !in todo ==> LongKey(key, debug) in out && Decodable(fields[key])
        invariant forall k :: k in out ==>
                    exists key :: key in fields && k == LongKey(key, debug) && Decodes(fields[key], debug, out[k])
        decreases |todo|
      {
        var key :| key in todo;
        todo := todo - {key};
        var value := CborToJson(fields[key], debug);
        if value.None? {
          return None;
        }
        out := out[LongKey(key, debug) := value.value];
      }
      v := Some(Object(out));
    case CTag(_, inner) => v := CborToJson(inner, debug);
    case COther => v := Some(Null);
  }

  // ---- Normal form --------------------------------------------------------

  /** `w` is a possible result of decoding an encoding of `v`. */
  ghost predicate RoundTrip(v: Json, debug: Debug, w: Json) {
    exists c :: Encodes(v, c) && Decodes(c, debug, w)
  }

  /** The aliases are exactly the keys that do not come back as themselves, and no key comes back as one. */
  lemma KeyNormalForm(key: string)
    ensures Expand(Shorten(key)) == key <==> key !in ALIASES
    ensures Expand(Shorten(key)) !in ALIASES
  {
  }

  /** Whatever was encoded can be decoded. */
  lemma {:induction false} EncodedIsDecodable(v: Json, c: Cbor)
    requires Encodes(v, c)
    ensures Decodable(c)
    decreases v
  {
    match v
    case Array(items) =>
      forall i | 0 <= i < |items| ensures Decodable(c.items[i]) {
        EncodedIsDecodable(items[i], c.items[i]);
      }
    case Object(fields) =>
      forall key | key in c.fields ensures Decodable(c.fields[key]) {
        var k :| k in fields && key == CText(Shorten(k)) && Encodes(fields[k], c.fields[key]);
        EncodedIsDecodable(fields[k], c.fields[key]);
      }
    case _ =>
  }

  /** The field of the original object that a field of the result comes from. */
  lemma Origin(v: Json, c: Cbor, debug: Debug, w: Json, long: string) returns (k: string)
    requires Encodes(v, c) && Decodes(c, debug, w) && v.Object? && c.CMap? && w.Object? && long in w.fields
    ensures k in v.fields && CText(Shorten(k)) in c.fields && long == Expand(Shorten(k))
    ensures var part := c.fields[CText(Shorten(k))];
            Encodes(v.fields[k], part) && Decodes(part, debug, w.fields[long])
  {
    hide Shorten, Expand;
    var key :| key in c.fields && long == LongKey(key, debug) && Decodes(c.fields[key], debug, w.fields[long]);
    k :| k in v.fields && key == CText(Shorten(k)) && Encodes(v.fields[k], c.fields[key]);
  }

  lemma KeyComesBack(v: Json, c: Cbor, debug: Debug, w: Json, k: string)
    requires Encodes(v, c) && Decodes(c, debug, w) && v.Object? && c.CMap? && w.Object? && k in v.fields
    ensures Expand(Shorten(k)) in w.fields
  {
    hide Shorten, Expand;
    assert LongKey(CText(Shorten(k)), debug) == Expand(Shorten(k));
  }

  /** Every result of a round trip is in normal form. */
  lemma {:induction false} RoundTripIsNormal(v: Json, c: Cbor, debug: Debug, w: Json)
    requires Encodes(v, c) && Decodes(c, debug, w)
    ensures Normal(w)
    decreases v
  {
    match v
    case Array(items) =>
      forall i | 0 <= i < |items| ensures Normal(w.items[i]) {
        RoundTripIsNormal(items[i], c.items[i], debug, w.items[i]);
      }
    case Object(fields) =>
      forall long | long in w.fields ensures long !in ALIASES && Normal(w.fields[long]) {
        var k := Origin(v, c, debug, w, long);
        KeyNormalForm(k);
        RoundTripIsNormal(fields[k], c.fields[CText(Shorten(k))], debug, w.fields[long]);
      }
    case _ =>
  }

  /** A value in normal form comes back unchanged. */
  lemma {:induction false} NormalRoundTrips(v: Json, c: Cbor, debug: Debug, w: Json)
    requires Normal(v) && Encodes(v, c) && Decodes(c, debug, w)
    ensures w == v
    decreases v, 1
  {
    if v.Object? {
      ObjectComesBack(v, c, debug, w);
    } else if v.Array? {
      ArrayComesBack(v, c, debug, w);
    }
  }

  lemma {:induction false} ObjectComesBack(v: Json, c: Cbor, debug: Debug, w: Json)
    requires Normal(v) && Encodes(v, c) && Decodes(c, debug, w) && v.Object?
    ensures w == v
    decreases v, 0
  {
    hide *;
    NormalObject(v, c, debug, w);
    MapShape(v, c, debug, w);
    forall k | k in v.fields ensures w.fields[k] == v.fields[k] {
      NormalField(v, c, debug, w, k);
      NormalRoundTrips(v.fields[k], c.fields[CText(Shorten(k))], debug, w.fields[k]);
    }
    assert w.fields == v.fields;
  }

  lemma {:induction false} ArrayComesBack(v: Json, c: Cbor, debug: Debug, w: Json)
    requires Normal(v) && Encodes(v, c) && Decodes(c, debug, w) && v.Array?
    ensures w == v
    decreases v, 0
  {
    hide *;
    NormalArray(v, c, debug, w);
    forall i | 0 <= i < |v.items| ensures w.items[i] == v.items[i] {
      NormalRoundTrips(v.items[i], c.items[i], debug, w.items[i]);
    }
    assert w.items == v.items;
  }

  lemma NormalArray(v: Json, c: Cbor, debug: Debug, w: Json)
    requires Normal(v) && Encodes(v, c) && Decodes(c, debug, w) && v.Array?
    ensures c.CArray? && w.Array? && |w.items| == |c.items| == |v.items|
    ensures forall i :: 0 <= i < |v.items| ==>
              Normal(v.items[i]) && Encodes(v.items[i], c.items[i]) && Decodes(c.items[i], debug, w.items[i])
  {
  }

  lemma MapShape(v: Json, c: Cbor, debug: Debug, w: Json)
    requires Normal(v) && Encodes(v, c) && Decodes(c, debug, w) && v.Object?
    ensures c.CMap? && w.Object? && forall k :: k in v.fields ==> k !in ALIASES && Normal(v.fields[k])
  {
  }

  /** A field of the result has the name of a field of the original and comes from that one. */
  lemma NormalField(v: Json, c: Cbor, debug: Debug, w: Json, long: string)
    requires Encodes(v, c) && Decodes(c, debug, w) && v.Object? && c.CMap? && w.Object? && long in w.fields
    requires forall k :: k in v.fields ==> k !in ALIASES
    ensures long in v.fields && CText(Shorten(long)) in c.fields
    ensures var part := c.fields[CText(Shorten(long))];
            Encodes(v.fields[long], part) && Decodes(part, debug, w.fields[long])
  {
    hide *;
    var k := Origin(v, c, debug, w, long);
    KeyNormalForm(k);
  }

  lemma NormalObject(v: Json, c: Cbor, debug: Debug, w: Json)
    requires Normal(v) && Encodes(v, c) && Decodes(c, debug, w) && v.Object?
    ensures c.CMap? && w.Object? && w.fields.Keys == v.fields.Keys
    ensures forall k :: k in v.fields ==> Normal(v.fields[k])
  {
    hide *;
    MapShape(v, c, debug, w);
    forall k | k in v.fields ensures k in w.fields {
      KeyNormalForm(k);
      KeyComesBack(v, c, debug, w, k);
    }
    forall long | long in w.fields ensures long in v.fields {
      NormalField(v, c, debug, w, long);
    }
  }

  /** Idempotence, whichever colliding keys win in either pass. */
  lemma RoundTripIsIdempotent(v: Json, debug: Debug, w: Json, again: Json)
    requires RoundTrip(v, debug, w) && RoundTrip(w, debug, again)
    ensures again == w
  {
    hide Normal, Encodes, Decodes;
    var c :| Encodes(v, c) && Decodes(c, debug, w);
    RoundTripIsNormal(v, c, debug, w);
    var c2 :| Encodes(w, c2) && Decodes(c2, debug, again);
    NormalRoundTrips(w, c2, debug, again);
  }

  /** A round trip is the identity exactly on the values without alias keys. */
  lemma RoundTripIsIdentityIff(v: Json, debug: Debug, w: Json)
    requires RoundTrip(v, debug, w)
    ensures w == v <==> Normal(v)
  {
    hide Normal, Encodes, Decodes;
    var c :| Encodes(v, c) && Decodes(c, debug, w);
    RoundTripIsNormal(v, c, debug, w);
    if Normal(v) {
      NormalRoundTrips(v, c, debug, w);
    }
  }

  lemma RoundTripBy(v: Json, c: Cbor, debug: Debug, w: Json)
    requires Encodes(v, c) && Decodes(c, debug, w)
    ensures RoundTrip(v, debug, w)
  {
  }

  /** Both conversions in a row never fail and give the canonical form. */
  method ThroughCbor(v: Json, debug: Debug) returns (w: Json)
    ensures w == Canon(v) && RoundTrip(v, debug, w)
  {
    hide *;
    var c := JsonToCbor(v);
    SortedIsEncoding(v, c);
    EncodedIsDecodable(v, c);
    var decoded := CborToJson(c, debug);
    w := decoded.value;
    ResultIsCanon(v, c, debug, w);
    RoundTripBy(v, c, debug, w);
  }

  /** No two keys of a map come back under the same name. */
  ghost predicate Clear(c: Cbor, debug: Debug) {
    match c
    case CArray(items) => forall i :: 0 <= i < |items| ==> Clear(items[i], debug)
    case CMap(fields) =>
      (forall a, b :: a in fields && b in fields && LongKey(a, debug) == LongKey(b, debug) ==> a == b) &&
      forall key :: key in fields ==> Clear(fields[key], debug)
    case CTag(_, inner) => Clear(inner, debug)
    case _ => true
  }

  /** Without such keys, decoding any CBOR value, from whatever sender, has one result. */
  lemma {:induction false} DecodesUniquely(c: Cbor, debug: Debug, w1: Json, w2: Json)
    requires Clear(c, debug) && Decodes(c, debug, w1) && Decodes(c, debug, w2)
    ensures w1 == w2
    decreases c, 1
  {
    if c.CArray? {
      forall i | 0 <= i < |c.items| ensures w1.items[i] == w2.items[i] {
        DecodesUniquely(c.items[i], debug, w1.items[i], w2.items[i]);
      }
      assert w1.items == w2.items;
    } else if c.CMap? {
      MapDecodesUniquely(c, debug, w1, w2);
    } else if c.CTag? {
      DecodesUniquely(c.inner, debug, w1, w2);
    }
  }

  lemma {:induction false} MapDecodesUniquely(c: Cbor, debug: Debug, w1: Json, w2: Json)
    requires c.CMap? && Clear(c, debug) && Decodes(c, debug, w1) && Decodes(c, debug, w2)
    ensures w1 == w2
    decreases c, 0
  {
    hide *;
    DecodedKeys(c, debug, w1);
    DecodedKeys(c, debug, w2);
    forall k | k in w1.fields ensures k in w2.fields && w1.fields[k] == w2.fields[k] {
      var a := KeyBehind(c, debug, w1, k);
      var b := KeyBehind(c, debug, w2, k);
      ClearKeys(c, debug, a, b);
      DecodesUniquely(c.fields[a], debug, w1.fields[k], w2.fields[k]);
    }
    forall k | k in w2.fields ensures k in w1.fields {
      var b := KeyBehind(c, debug, w2, k);
    }
    assert w1.fields == w2.fields;
  }

  lemma KeyBehind(c: Cbor, debug: Debug, w: Json, k: string) returns (key: Cbor)
    requires c.CMap? && w.Object? && Decodes(c, debug, w) && k in w.fields
    ensures key in c.fields && k == LongKey(key, debug) && Decodes(c.fields[key], debug, w.fields[k])
  {
    hide LongKey;
    key :| key in c.fields && k == LongKey(key, debug) && Decodes(c.fields[key], debug, w.fields[k]);
  }

  lemma ClearKeys(c: Cbor, debug: Debug, a: Cbor, b: Cbor)
    requires c.CMap? && Clear(c, debug) && a in c.fields && b in c.fields && LongKey(a, debug) == LongKey(b, debug)
    ensures a == b && Clear(c.fields[a], debug)
  {
    hide LongKey;
  }

  // ---- Which colliding field wins -----------------------------------------

  /** Every result of a round trip through the sorted map is the canonical form. */
  lemma {:induction false} ResultIsCanon(v: Json, c: Cbor, debug: Debug, w: Json)
    requires SortedEncodes(v, c) && Decodes(c, debug, w)
    ensures w == Canon(v)
    decreases v, 1
  {
    if v.Object? {
      ObjectIsCanon(v, c, debug, w);
    } else if v.Array? {
      ArrayIsCanon(v, c, debug, w);
    }
  }

  lemma {:induction false} ArrayIsCanon(v: Json, c: Cbor, debug: Debug, w: Json)
    requires SortedEncodes(v, c) && Decodes(c, debug, w) && v.Array?
    ensures w == Canon(v)
    decreases v, 0
  {
    forall i | 0 <= i < |v.items| ensures w.items[i] == Canon(v).items[i] {
      ResultIsCanon(v.items[i], c.items[i], debug, w.items[i]);
    }
    assert w.items == Canon(v).items;
  }

  lemma {:induction false} ObjectIsCanon(v: Json, c: Cbor, debug: Debug, w: Json)
    requires SortedEncodes(v, c) && Decodes(c, debug, w) && v.Object?
    ensures w == Canon(v)
    decreases v, 0
  {
    hide *;
    SortedShape(v, c, debug, w);
    CanonObject(v.fields);
    forall long | long in w.fields ensures w.fields[long] == Canon(v).fields[long] {
      var k := SortedOrigin(v, c, debug, w, long);
      ResultIsCanon(v.fields[k], c.fields[CText(Shorten(k))], debug, w.fields[long]);
      GreatestIsWinner(v.fields, k, long);
    }
    assert w.fields == Canon(v).fields;
  }

  lemma CanonObject(fields: map<string, Json>)
    ensures Canon(Object(fields)).Object? && Canon(Object(fields)).fields.Keys == LongKeys(fields)
    ensures forall long :: long in LongKeys(fields) ==>
              Canon(Object(fields)).fields[long] == Canon(fields[WinnerOf(fields, long)])
  {
  }

  lemma SortedShape(v: Json, c: Cbor, debug: Debug, w: Json)
    requires SortedEncodes(v, c) && Decodes(c, debug, w) && v.Object?
    ensures c.CMap? && w.Object? && w.fields.Keys == LongKeys(v.fields)
  {
    hide Shorten, Expand, SortedEncodes, Encodes, Decodes, Greatest;
    SortedMeans(v, c);
    DecodedKeys(c, debug, w);
    forall long | long in LongKeys(v.fields) ensures long in w.fields {
      var k :| k in v.fields && long == Canonical(k);
      assert LongKey(CText(Shorten(k)), debug) == long;
    }
    forall long | long in w.fields ensures long in LongKeys(v.fields) {
      var k := SortedOrigin(v, c, debug, w, long);
      assert k in v.fields;
    }
    assert w.fields.Keys == LongKeys(v.fields);
  }

  lemma DecodedKeys(c: Cbor, debug: Debug, w: Json)
    requires Decodes(c, debug, w) && c.CMap?
    ensures w.Object? && forall key :: key in c.fields ==> LongKey(key, debug) in w.fields
  {
  }

  lemma SortedMeans(v: Json, c: Cbor)
    requires SortedEncodes(v, c) && v.Object?
    ensures c.CMap? && (forall k :: k in v.fields ==> CText(Shorten(k)) in c.fields)
    ensures forall key :: key in c.fields ==>
              exists k :: Greatest(v.fields, k) && key == CText(Shorten(k)) && SortedEncodes(v.fields[k], c.fields[key])
  {
  }

  /** The field that a field of the result comes from: the greatest of the colliding ones. */
  lemma SortedOrigin(v: Json, c: Cbor, debug: Debug, w: Json, long: string) returns (k: string)
    requires SortedEncodes(v, c) && Decodes(c, debug, w) && v.Object? && c.CMap? && w.Object? && long in w.fields
    ensures Greatest(v.fields, k) && k in v.fields && CText(Shorten(k)) in c.fields && long == Canonical(k)
    ensures var part := c.fields[CText(Shorten(k))];
            SortedEncodes(v.fields[k], part) && Decodes(part, debug, w.fields[long])
  {
    hide Shorten, Expand;
    var key :| key in c.fields && long == LongKey(key, debug) && Decodes(c.fields[key], debug, w.fields[long]);
    SortedMeans(v, c);
    hide SortedEncodes;
    k :| Greatest(v.fields, k) && key == CText(Shorten(k)) && SortedEncodes(v.fields[k], c.fields[key]);
  }

  lemma GreatestIsWinner(fields: map<string, Json>, k: string, long: string)
    requires Greatest(fields, k) && long == Canonical(k)
    ensures long in LongKeys(fields) && WinnerOf(fields, long) == k
  {
    hide Shorten, Expand, AtMost;
    var o := WinnerOf(fields, long);
    SameShort(o, k);
    AtMostOrder(o, k, k);
  }

  /** Encoding sorted keys is one of the encodings in which any colliding key may win. */
  lemma {:induction false} SortedIsEncoding(v: Json, c: Cbor)
    requires SortedEncodes(v, c)
    ensures Encodes(v, c)
    decreases v
  {
    match v
    case Array(items) =>
      forall i | 0 <= i < |items| ensures Encodes(items[i], c.items[i]) {
        SortedIsEncoding(items[i], c.items[i]);
      }
    case Object(fields) =>
      forall key | key in c.fields
        ensures exists k :: k in fields && key == CText(Shorten(k)) && Encodes(fields[k], c.fields[key])
      {
        var k :| Greatest(fields, k) && key == CText(Shorten(k)) && SortedEncodes(fields[k], c.fields[key]);
        SortedIsEncoding(fields[k], c.fields[key]);
      }
    case _ =>
  }

  /** The canonical form has no alias keys, and changes nothing exactly where there were none. */
  lemma {:induction false} CanonIsNormal(v: Json)
    ensures Normal(Canon(v))
  {
    match v
    case Array(items) =>
      forall i | 0 <= i < |items| ensures Normal(Canon(v).items[i]) {
        CanonIsNormal(items[i]);
      }
    case Object(fields) =>
      CanonObject(fields);
      forall long | long in LongKeys(fields) ensures long !in ALIASES && Normal(Canon(v).fields[long]) {
        var k := WinnerOf(fields, long);
        KeyNormalForm(k);
        CanonIsNormal(fields[k]);
      }
    case _ =>
  }

  lemma {:induction false} CanonFixesNormal(v: Json)
    requires Normal(v)
    ensures Canon(v) == v
  {
    match v
    case Array(items) =>
      forall i | 0 <= i < |items| ensures Canon(v).items[i] == items[i] {
        CanonFixesNormal(items[i]);
      }
      assert Canon(v).items == items;
    case Object(fields) =>
      CanonObject(fields);
      NormalKeys(fields);
      forall k | k in fields ensures Canon(v).fields[k] == fields[k] {
        CanonFixesNormal(fields[k]);
      }
      assert Canon(v).fields == fields;
    case _ =>
  }

  lemma NormalKeys(fields: map<string, Json>)
    requires forall k :: k in fields ==> k !in ALIASES
    ensures LongKeys(fields) == fields.Keys && forall k :: k in fields ==> WinnerOf(fields, k) == k
  {
    hide Shorten, Expand;
    forall k | k in fields ensures k in LongKeys(fields) && WinnerOf(fields, k) == k {
      KeyNormalForm(k);
      assert Canonical(k) in LongKeys(fields);
      KeyNormalForm(WinnerOf(fields, k));
    }
    forall long | long in LongKeys(fields) ensures long in fields {
      KeyNormalForm(WinnerOf(fields, long));
    }
  }

  lemma CanonIsIdempotent(v: Json)
    ensures Canon(Canon(v)) == Canon(v) && (Canon(v) == v <==> Normal(v))
  {
    hide Canon, Normal;
    CanonIsNormal(v);
    CanonFixesNormal(Canon(v));
    if Normal(v) {
      CanonFixesNormal(v);
    }
  }

  /** With colliding keys all but the field with the greatest name are lost. */
  lemma GreatestNameWins(fields: map<string, Json>, k: string)
    requires k in fields
    ensures Canonical(k) in Canon(Object(fields)).fields
    ensures Greatest(fields, k) ==> Canon(Object(fields)).fields[Canonical(k)] == Canon(fields[k])
    ensures |Canon(Object(fields)).fields| == |LongKeys(fields)| &&
            LongKeys(fields) == set o | o in fields :: Canonical(o)
  {
    hide Shorten, Expand, Canon, Greatest, WinnerOf;
    CanonObject(fields);
    if Greatest(fields, k) {
      GreatestIsWinner(fields, k, Canonical(k));
    }
    assert Canon(Object(fields)).fields.Keys == LongKeys(fields);
  }

  lemma DataAfterD()
    ensures Canonical("d") == "data" == Canonical("data") && Shorten("d") == "d" == Shorten("data")
    ensures AtMost("d", "data") && AtMost("data", "data")
  {
    assert "d"[1..] == "";
    AtMostOrder("data", "data", "data");
  }

  lemma DataWins(fields: map<string, Json>)
    requires fields.Keys == {"d", "data"}
    ensures Greatest(fields, "data") && LongKeys(fields) == {"data"}
  {
    DataAfterD();
    hide Shorten, Expand, Canonical, AtMost;
    forall k | k in fields ensures Canonical(k) == "data" && AtMost(k, "data") {
      assert k == "d" || k == "data";
    }
    assert Canonical("data") in LongKeys(fields);
  }

  /** Two colliding keys: the value of the one that sorts first is lost, whatever the values. */
  lemma CollidingKeysLoseOne(x: Json, y: Json)
    ensures Canon(Object(map["d" := x, "data" := y])) == Object(map["data" := Canon(y)])
  {
    hide *;
    var fields := map["d" := x, "data" := y];
    DataAfterD();
    DataWins(fields);
    GreatestNameWins(fields, "data");
    CanonObject(fields);
    assert Canon(Object(fields)).fields == map["data" := Canon(y)];
  }
}
