/** AMQP tables: nested maps of tagged values, written in whatever order the map yields. */
module Tables {
  import opened Wire

  datatype IntType = Int8 | Uint8 | Int16 | Uint16 | Int32 | Uint32 | Int64 | Uint64

  datatype FloatType = Float32 | Float64

  /** The values a table can hold. Strings are byte strings. Times have whole seconds and
      nanoseconds. `Unsupported` stands for every type the encoder refuses. */
  datatype Value =
    | Bool(b: bool)
    | Int(t: IntType, n: int)
    | Float(f: FloatType, r: real)
    | Str(s: Bytes)
    | Raw(s: Bytes)
    | Time(sec: int, nsec: nat)
    | Tab(m: Table)
    | Unsupported

  type Table = map<Bytes, Value>

  function Width(t: IntType): nat {
    match t
    case Int8 => 1 case Uint8 => 1
    case Int16 => 2 case Uint16 => 2
    case Int32 => 4 case Uint32 => 4
    case Int64 => 8 case Uint64 => 8
  }

  predicate Signed(t: IntType) {
    t.Int8? || t.Int16? || t.Int32? || t.Int64?
  }

  function FloatWidth(f: FloatType): nat {
    if f.Float32? then 4 else 8
  }

  function IntTag(t: IntType): Byte {
    (match t
     case Int8 => 'b' case Uint8 => 'B'
     case Int16 => 's' case Uint16 => 'u'
     case Int32 => 'I' case Uint32 => 'i'
     case Int64 => 'l' case Uint64 => 'L') as int
  }

  const BOOL_TAG: Byte := 't' as int
  const STR_TAG: Byte := 'S' as int
  const RAW_TAG: Byte := 'x' as int
  const TIME_TAG: Byte := 'T' as int
  const TAB_TAG: Byte := 'F' as int

  function FloatTag(f: FloatType): Byte {
    if f.Float32? then 'f' as int else 'd' as int
  }

  function IntOfTag(tag: Byte): (r: Read<IntType>) {
    if tag == 'b' as int then Ok(Int8, []) else if tag == 'B' as int then Ok(Uint8, [])
    else if tag == 's' as int then Ok(Int16, []) else if tag == 'u' as int then Ok(Uint16, [])
    else if tag == 'I' as int then Ok(Int32, []) else if tag == 'i' as int then Ok(Uint32, [])
    else if tag == 'l' as int then Ok(Int64, []) else if tag == 'L' as int then Ok(Uint64, [])
    else Err
  }

  /** Two's complement in `w` bytes. */
  function ToUnsigned(n: int, w: nat): nat {
    if n >= 0 then n else if n + Pow256(w) >= 0 then n + Pow256(w) else 0
  }

  function FromUnsigned(u: nat, w: nat, signed: bool): int {
    if signed && 2 * u >= Pow256(w) then u - Pow256(w) else u
  }

  predicate InRange(n: int, w: nat, signed: bool) {
    if signed then 0 <= 2 * n + Pow256(w) && 2 * n < Pow256(w) else 0 <= n < Pow256(w)
  }

  /** The value fits its Go type, and a float can be converted to the unsigned integer it is
      written as. */
  predicate WellTyped(v: Value) {
    match v
    case Int(t, n) => InRange(n, Width(t), Signed(t))
    case Float(f, r) => -1.0 < r < Pow256(FloatWidth(f)) as real
    case Time(sec, nsec) => InRange(sec, 8, true) && nsec < 1_000_000_000
    case _ => true
  }

  /** The number without its fraction, towards zero. */
  function Whole(r: real): int {
    if r >= 0.0 then r.Floor else -((-r).Floor)
  }

  // ---------------------------------------------------------------- Tables in writing order

  /** A table with an order on its entries, at every level. */
  datatype Item = Leaf(v: Value) | Node(entries: seq<Entry>)

  datatype Entry = Entry(key: Bytes, item: Item)

  function Flatten(i: Item): Value
    decreases i
  {
    match i
    case Leaf(v) => v
    case Node(es) => Tab(Collect(map[], es))
  }

  function Collect(acc: Table, es: seq<Entry>): Table
    decreases es
  {
    if es == [] then acc else Collect(acc[es[0].key := Flatten(es[0].item)], es[1..])
  }

  function LeafTag(v: Value): Byte {
    match v
    case Bool(b) => BOOL_TAG
    case Int(t, n) => IntTag(t)
    case Float(f, r) => FloatTag(f)
    case Str(s) => STR_TAG
    case Raw(s) => RAW_TAG
    case Time(sec, nsec) => TIME_TAG
    case _ => 0
  }

  function LeafBody(v: Value): Bytes {
    match v
    case Bool(b) => BigEndian(if b then 1 else 0, 1)
    case Int(t, n) => BigEndian(ToUnsigned(n, Width(t)), Width(t))
    case Float(f, r) => BigEndian(if r >= 0.0 then r.Floor else 0, FloatWidth(f))
    case Str(s) => Blob(s)
    case Raw(s) => Blob(s)
    case Time(sec, nsec) => BigEndian(ToUnsigned(sec, 8), 8)
    case _ => []
  }

  function Encode(i: Item): Bytes
    decreases i
  {
    match i
    case Leaf(v) => [LeafTag(v)] + LeafBody(v)
    case Node(es) => [TAB_TAG] + EncodeTable(es)
  }

  function EncodeTable(es: seq<Entry>): Bytes
    decreases es, 1
  {
    Blob(EncodeBody(es))
  }

  function EncodeBody(es: seq<Entry>): Bytes
    decreases es, 0
  {
    if es == [] then [] else Blob(es[0].key) + Encode(es[0].item) + EncodeBody(es[1..])
  }

  /** Leaves are supported non-table values that fit their types, and every length fits in four
      bytes. */
  predicate Writable(i: Item)
    decreases i
  {
    match i
    case Leaf(v) => !v.Tab? && !v.Unsupported? && WellTyped(v) && (v.Str? || v.Raw? ==> Short(v.s))
    case Node(es) => WritableAll(es) && Short(EncodeBody(es))
  }

  predicate WritableAll(es: seq<Entry>)
    decreases es
  {
    es == [] || (Short(es[0].key) && Writable(es[0].item) && WritableAll(es[1..]))
  }

  // ---------------------------------------------------------------- Reading

  function ReadInt(b: Bytes, t: IntType): (r: Read<Value>)
    ensures r.Ok? ==> |r.rest| < |b|
  {
    var u := ReadNumber(b, Width(t));
    if u.Err? then Err else Ok(Int(t, FromUnsigned(u.value, Width(t), Signed(t))), u.rest)
  }

  function ReadFloat(b: Bytes, f: FloatType): (r: Read<Value>)
    ensures r.Ok? ==> |r.rest| < |b|
  {
    var u := ReadNumber(b, FloatWidth(f));
    if u.Err? then Err else Ok(Float(f, u.value as real), u.rest)
  }

  function ReadLeaf(tag: Byte, b: Bytes): (r: Read<Value>)
    ensures r.Ok? ==> |r.rest| < |b|
  {
    if tag == BOOL_TAG then
      var u := ReadNumber(b, 1);
      if u.Err? then Err else Ok(Bool(u.value != 0), u.rest)
    else if IntOfTag(tag).Ok? then ReadInt(b, IntOfTag(tag).value)
    else if tag == 'f' as int then ReadFloat(b, Float32)
    else if tag == 'd' as int then ReadFloat(b, Float64)
    else if tag == STR_TAG || tag == RAW_TAG then
      var s := ReadBlob(b);
      if s.Err? then Err else Ok(if tag == STR_TAG then Str(s.value) else Raw(s.value), s.rest)
    else if tag == TIME_TAG then
      var u := ReadNumber(b, 8);
      if u.Err? then Err else Ok(Time(FromUnsigned(u.value, 8, true), 0), u.rest)
    else Err
  }

  function ReadValue(b: Bytes): (r: Read<Value>)
    ensures r.Ok? ==> |r.rest| < |b|
    decreases |b|, 0
  {
    if b == [] then Err
    else if b[0] == TAB_TAG then
      var t := ReadTable(b[1..]);
      if t.Err? then Err else Ok(Tab(t.value), t.rest)
    else ReadLeaf(b[0], b[1..])
  }

  function ReadTable(b: Bytes): (r: Read<Table>)
    ensures r.Ok? ==> |r.rest| < |b|
    decreases |b|, 1
  {
    var body := ReadBlob(b);
    if body.Err? then Err
    else
      var t := ReadBody(body.value, map[]);
      if t.Err? then Err else Ok(t.value, body.rest)
  }

  function ReadBody(b: Bytes, acc: Table): (r: Read<Table>)
    decreases |b|, 2
  {
    if b == [] then Ok(acc, [])
    else
      var key := ReadBlob(b);
      if key.Err? then Err
      else
        var v := ReadValue(key.rest);
        if v.Err? then Err else ReadBody(v.rest, acc[key.value := v.value])
  }

  // ---------------------------------------------------------------- What survives

  /** Reading gives back whole seconds and whole numbers. */
  function Truncated(v: Value): Value
    decreases v
  {
    match v
    case Float(f, r) => Float(f, Whole(r) as real)
    case Time(sec, nsec) => Time(sec, 0)
    case Tab(m) => Tab(map k | k in m :: Truncated(m[k]))
    case _ => v
  }

  function TruncatedTable(m: Table): Table {
    map k | k in m :: Truncated(m[k])
  }

  /** No fraction of a second and no fractional number anywhere. */
  predicate Exact(v: Value)
    decreases v
  {
    match v
    case Float(f, r) => r == Whole(r) as real
    case Time(sec, nsec) => nsec == 0
    case Tab(m) => forall k | k in m :: Exact(m[k])
    case _ => true
  }

  lemma {:induction false} TruncatedExact(v: Value)
    ensures Truncated(v) == v <==> Exact(v)
    decreases v
  {
    if v.Tab? {
      forall k | k in v.m ensures Truncated(v.m[k]) == v.m[k] <==> Exact(v.m[k]) {
        TruncatedExact(v.m[k]);
      }
      var t := map k | k in v.m :: Truncated(v.m[k]);
      if Truncated(v) == v {
        assert t == v.m;
        forall k | k in v.m ensures Exact(v.m[k]) { assert t[k] == v.m[k]; }
      }
    }
  }

  lemma Wraps(n: int, w: nat, signed: bool)
    requires InRange(n, w, signed)
    ensures ToUnsigned(n, w) < Pow256(w) && FromUnsigned(ToUnsigned(n, w), w, signed) == n
  {
  }

  lemma ReadWrittenInt(t: IntType, n: int, rest: Bytes)
    requires WellTyped(Int(t, n))
    ensures ReadInt(BigEndian(ToUnsigned(n, Width(t)), Width(t)) + rest, t) == Ok(Int(t, n), rest)
  {
    Wraps(n, Width(t), Signed(t));
    ReadWrittenNumber(ToUnsigned(n, Width(t)), Width(t), rest);
  }

  lemma ReadWrittenFloat(f: FloatType, r: real, rest: Bytes)
    requires WellTyped(Float(f, r))
    ensures ReadFloat(BigEndian(if r >= 0.0 then r.Floor else 0, FloatWidth(f)) + rest, f) ==
            Ok(Float(f, Whole(r) as real), rest)
  {
    var n := if r >= 0.0 then r.Floor else 0;
    WholeFits(r, FloatWidth(f));
    ReadWrittenNumber(n, FloatWidth(f), rest);
  }

  lemma ReadWrittenTime(sec: int, rest: Bytes)
    requires InRange(sec, 8, true)
    ensures ReadLeaf(TIME_TAG, BigEndian(ToUnsigned(sec, 8), 8) + rest) == Ok(Time(sec, 0), rest)
  {
    Wraps(sec, 8, true);
    ReadWrittenNumber(ToUnsigned(sec, 8), 8, rest);
  }

  lemma ReadWrittenBool(b: bool, rest: Bytes)
    ensures ReadLeaf(BOOL_TAG, BigEndian(if b then 1 else 0, 1) + rest) == Ok(Bool(b), rest)
  {
    Widths();
    ReadWrittenNumber(if b then 1 else 0, 1, rest);
  }

  lemma IntDispatch(t: IntType, b: Bytes)
    ensures IntTag(t) != TAB_TAG && ReadLeaf(IntTag(t), b) == ReadInt(b, t)
  {
    assert IntOfTag(IntTag(t)) == Ok(t, []) by { match t case _ => }
  }

  lemma FloatDispatch(f: FloatType, b: Bytes)
    ensures FloatTag(f) != TAB_TAG && ReadLeaf(FloatTag(f), b) == ReadFloat(b, f)
  {
    match f case _ =>
  }

  lemma ReadWrittenLeaf(v: Value, rest: Bytes)
    requires Writable(Leaf(v))
    ensures LeafTag(v) != TAB_TAG && ReadLeaf(LeafTag(v), LeafBody(v) + rest) == Ok(Truncated(v), rest)
  {
    match v
    case Bool(b) => ReadWrittenBool(b, rest);
    case Int(t, n) =>
      IntDispatch(t, LeafBody(v) + rest);
      ReadWrittenInt(t, n, rest);
    case Float(f, r) =>
      FloatDispatch(f, LeafBody(v) + rest);
      ReadWrittenFloat(f, r, rest);
    case Str(s) => ReadWrittenBlob(s, rest);
    case Raw(s) => ReadWrittenBlob(s, rest);
    case Time(sec, nsec) => ReadWrittenTime(sec, rest);
  }

  lemma Tagged(tag: Byte, body: Bytes, rest: Bytes)
    ensures ([tag] + body + rest)[0] == tag && ([tag] + body + rest)[1..] == body + rest
  {
  }

  lemma WholeFits(r: real, w: nat)
    requires -1.0 < r < Pow256(w) as real
    ensures Whole(r) == if r >= 0.0 then r.Floor else 0
    ensures 0 <= Whole(r) < Pow256(w)
  {
  }

  lemma {:induction false} ReadWrittenValue(i: Item, rest: Bytes)
    requires Writable(i)
    ensures ReadValue(Encode(i) + rest) == Ok(Truncated(Flatten(i)), rest)
    decreases i, 0
  {
    match i
    case Leaf(v) =>
      ReadWrittenLeaf(v, rest);
      Tagged(LeafTag(v), LeafBody(v), rest);
    case Node(es) =>
      ReadWrittenTable(es, rest);
      Tagged(TAB_TAG, EncodeTable(es), rest);
  }

  lemma {:induction false} ReadWrittenTable(es: seq<Entry>, rest: Bytes)
    requires WritableAll(es) && Short(EncodeBody(es))
    ensures ReadTable(EncodeTable(es) + rest) == Ok(TruncatedTable(Collect(map[], es)), rest)
    decreases es, 1
  {
    ReadWrittenBlob(EncodeBody(es), rest);
    ReadWrittenBody(es, map[]);
    assert TruncatedTable(map[]) == map[];
  }

  lemma {:induction false} ReadWrittenBody(es: seq<Entry>, acc: Table)
    requires WritableAll(es)
    ensures ReadBody(EncodeBody(es), TruncatedTable(acc)) == Ok(TruncatedTable(Collect(acc, es)), [])
    decreases es, 0
  {
    if es != [] {
      var e, tail := es[0], EncodeBody(es[1..]);
      Regroup(Blob(e.key), Encode(e.item), tail);
      ReadWrittenBlob(e.key, Encode(e.item) + tail);
      ReadWrittenValue(e.item, tail);
      var next := acc[e.key := Flatten(e.item)];
      TruncatedUpdate(acc, e.key, Flatten(e.item));
      ReadWrittenBody(es[1..], next);
    }
  }

  lemma TruncatedUpdate(acc: Table, k: Bytes, v: Value)
    ensures TruncatedTable(acc[k := v]) == TruncatedTable(acc)[k := Truncated(v)]
  {
  }

  /** Whatever order the entries were written in, at every level, reading returns the table with
      times and floats truncated and leaves exactly the bytes that follow; it returns the table
      itself exactly when there was nothing to truncate. */
  lemma TableRoundTrip(m: Table, es: seq<Entry>, rest: Bytes)
    requires Flatten(Node(es)) == Tab(m) && Writable(Node(es))
    ensures ReadTable(EncodeTable(es) + rest) == Ok(TruncatedTable(m), rest)
    ensures ReadTable(EncodeTable(es) + rest) == Ok(m, rest) <==> Exact(Tab(m))
  {
    ReadWrittenTable(es, rest);
    TruncatedExact(Tab(m));
    assert Truncated(Tab(m)) == Tab(TruncatedTable(m));
  }

  // ---------------------------------------------------------------- Writing, imperatively

  predicate Supported(v: Value)
    decreases v
  {
    match v
    case Unsupported => false
    case Tab(m) => forall k | k in m :: Supported(m[k])
    case _ => true
  }

  lemma {:induction false} BodyAppend(es: seq<Entry>, e: Entry)
    ensures EncodeBody(es + [e]) == EncodeBody(es) + Blob(e.key) + Encode(e.item)
  {
    if es == [] {
      assert es + [e] == [e];
      assert EncodeBody([e][1..]) == [];
    } else {
      assert (es + [e])[1..] == es[1..] + [e];
      BodyAppend(es[1..], e);
    }
  }

  lemma {:induction false} CollectAppend(acc: Table, es: seq<Entry>, e: Entry)
    ensures Collect(acc, es + [e]) == Collect(acc, es)[e.key := Flatten(e.item)]
    decreases es
  {
    if es == [] {
      assert es + [e] == [e];
    } else {
      assert (es + [e])[1..] == es[1..] + [e];
      CollectAppend(acc[es[0].key := Flatten(es[0].item)], es[1..], e);
    }
  }

  /** Appends the table in the order `es` in which the map yielded its entries, or nothing if some
      value is not supported. */
  method WriteTable(e: Encoder, m: Table) returns (ok: bool, ghost es: seq<Entry>)
    modifies e
    ensures ok <==> Supported(Tab(m))
    ensures ok ==> Flatten(Node(es)) == Tab(m) && e.buf == old(e.buf) + EncodeTable(es)
    ensures !ok ==> e.buf == old(e.buf)
    decreases Tab(m), 0
  {
    es := [];
    var tmp := new Encoder();
    var keys := m.Keys;
    while keys != {}
      invariant keys <= m.Keys && fresh(tmp) && tmp != e && e.buf == old(e.buf)
      invariant forall k | k in m && k !in keys :: Supported(m[k])
      invariant tmp.buf == EncodeBody(es)
      invariant Collect(map[], es) == map k | k in m && k !in keys :: m[k]
      decreases keys
    {
      var key :| key in keys;
      tmp.WriteBlob(key);
      ghost var item;
      ok, item := WriteValue(tmp, m[key]);
      if !ok { return; }
      BodyAppend(es, Entry(key, item));
      CollectAppend(map[], es, Entry(key, item));
      es := es + [Entry(key, item)];
      keys := keys - {key};
    }
    ok := true;
    assert Collect(map[], es) == m;
    e.WriteBlob(tmp.buf);
  }

  method WriteValue(e: Encoder, v: Value) returns (ok: bool, ghost i: Item)
    modifies e
    ensures ok <==> Supported(v)
    ensures ok ==> Flatten(i) == v && e.buf == old(e.buf) + Encode(i)
    decreases v, 1
  {
    i := Leaf(v);
    if v.Unsupported? { return false, i; }
    if v.Tab? {
      e.WriteByte(TAB_TAG);
      ghost var es;
      ok, es := WriteTable(e, v.m);
      Regroup(old(e.buf), [TAB_TAG], EncodeTable(es));
      i := Node(es);
      return;
    }
    e.WriteByte(LeafTag(v));
    WriteLeafBody(e, v);
    Regroup(old(e.buf), [LeafTag(v)], LeafBody(v));
    ok := true;
  }

  method WriteLeafBody(e: Encoder, v: Value)
    requires !v.Tab? && !v.Unsupported?
    modifies e
    ensures e.buf == old(e.buf) + LeafBody(v)
  {
    match v
    case Bool(b) => e.WriteUint(if b then 1 else 0, 1);
    case Int(t, n) => e.WriteUint(ToUnsigned(n, Width(t)), Width(t));
    case Float(f, r) => e.WriteUint(if r >= 0.0 then r.Floor else 0, FloatWidth(f));
    case Str(s) => e.WriteBlob(s);
    case Raw(s) => e.WriteBlob(s);
    case Time(sec, nsec) => e.WriteUint(ToUnsigned(sec, 8), 8);
  }

  // ---------------------------------------------------------------- Reading, imperatively

  /** Where the reader stands after a table that cannot be read: at the end if it is cut short, and
      otherwise after it. */
  function AfterBadTable(b: Bytes): Bytes {
    if ReadBlob(b).Ok? then ReadBlob(b).rest else []
  }

  method DecodeTable(d: Decoder) returns (ok: bool, m: Table)
    modifies d
    ensures ok <==> ReadTable(old(d.data)).Ok?
    ensures ok ==> ReadTable(old(d.data)) == Ok(m, d.data)
    ensures !ok ==> d.data == AfterBadTable(old(d.data))
    decreases |d.data|, 1
  {
    m := map[];
    var body;
    ok, body := d.ReadString();
    if !ok || |body| == 0 { return; }
    ok, m := DecodeBody(body);
  }

  method DecodeBody(body: Bytes) returns (ok: bool, m: Table)
    ensures ok <==> ReadBody(body, map[]).Ok?
    ensures ok ==> ReadBody(body, map[]) == Ok(m, [])
    decreases |body|, 2
  {
    var td := new Decoder(body);
    m := map[];
    while |td.data| > 0
      invariant fresh(td) && |td.data| <= |body|
      invariant ReadBody(td.data, m) == ReadBody(body, map[])
      decreases |td.data|
    {
      var key, v;
      ok, key := td.ReadString();
      if !ok { return; }
      ok, v := DecodeValue(td);
      if !ok { return; }
      m := m[key := v];
    }
    ok := true;
  }

  predicate KnownTag(tag: Byte) {
    || tag == BOOL_TAG || IntOfTag(tag).Ok? || tag == 'f' as int || tag == 'd' as int
    || tag == STR_TAG || tag == RAW_TAG || tag == TIME_TAG
  }

  /** Where the reader stands after the body of a leaf that cannot be read: at the end if it is cut
      short, and where it was if the tag is unknown. */
  function AfterBadLeaf(tag: Byte, b: Bytes): Bytes {
    if KnownTag(tag) then [] else b
  }

  function AfterBadValue(b: Bytes): Bytes {
    if b == [] then [] else if b[0] == TAB_TAG then AfterBadTable(b[1..]) else AfterBadLeaf(b[0], b[1..])
  }

  method DecodeValue(d: Decoder) returns (ok: bool, v: Value)
    modifies d
    ensures ok <==> ReadValue(old(d.data)).Ok?
    ensures ok ==> ReadValue(old(d.data)) == Ok(v, d.data)
    ensures !ok ==> d.data == AfterBadValue(old(d.data))
    decreases |d.data|, 0
  {
    v := Unsupported;
    var b;
    ok, b := d.ReadFull(1);
    if !ok { return; }
    if b[0] == TAB_TAG {
      var m;
      ok, m := DecodeTable(d);
      v := Tab(m);
    } else {
      ok, v := DecodeLeaf(d, b[0]);
    }
  }

  method DecodeLeaf(d: Decoder, tag: Byte) returns (ok: bool, v: Value)
    modifies d
    ensures ok <==> ReadLeaf(tag, old(d.data)).Ok?
    ensures ok ==> ReadLeaf(tag, old(d.data)) == Ok(v, d.data)
    ensures !ok ==> d.data == AfterBadLeaf(tag, old(d.data))
  {
    ok, v := false, Unsupported;
    var u: nat;
    if tag == BOOL_TAG {
      ok, u := d.ReadUint(1);
      v := Bool(u != 0);
    } else if IntOfTag(tag).Ok? {
      var t := IntOfTag(tag).value;
      ok, u := d.ReadUint(Width(t));
      v := Int(t, FromUnsigned(u, Width(t), Signed(t)));
    } else if tag == 'f' as int || tag == 'd' as int {
      var f := if tag == 'f' as int then Float32 else Float64;
      ok, u := d.ReadUint(FloatWidth(f));
      v := Float(f, u as real);
    } else if tag == STR_TAG || tag == RAW_TAG {
      var s;
      ok, s := d.ReadString();
      v := if tag == STR_TAG then Str(s) else Raw(s);
    } else if tag == TIME_TAG {
      ok, u := d.ReadUint(8);
      v := Time(FromUnsigned(u, 8, true), 0);
    }
  }
}
