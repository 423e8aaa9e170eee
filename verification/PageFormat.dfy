/** The page file: a sequence of messages, read until the end of the file. */
module PageFormat {
  import opened Wire

  const TWO_63: int := 0x8000_0000_0000_0000
  const TWO_64: int := 0x1_0000_0000_0000_0000

  /** What a page does not hold: the exchange, the routing key and the properties other than the
      content type. */
  datatype Meta = Meta(exchange: Bytes, routingKey: Bytes, properties: Bytes)

  const NO_META := Meta([], [], [])

  /** `at` is the enqueue time in nanoseconds since 1970; a message never stamped has the year 1. */
  datatype Msg = Msg(payload: Bytes, contentType: Bytes, tag: nat, at: int, meta: Meta)

  /** A nanosecond count as a signed 64-bit number, and back from its two's complement. */
  function ToWord(n: int): nat {
    n % TWO_64
  }

  function OfWord(w: nat): int {
    if w < TWO_63 then w else w - TWO_64
  }

  predicate Representable(n: int) {
    -TWO_63 <= n < TWO_63
  }

  /** What is left of a message after a page. */
  function Kept(m: Msg): Msg {
    m.(at := OfWord(ToWord(m.at)), meta := NO_META)
  }

  function KeptAll(ms: seq<Msg>): (kept: seq<Msg>)
    ensures |kept| == |ms|
  {
    if ms == [] then [] else [Kept(ms[0])] + KeptAll(ms[1..])
  }

  lemma Assoc(a: seq<Msg>, b: seq<Msg>, c: seq<Msg>)
    ensures a + b + c == a + (b + c)
  {
  }

  lemma {:induction false} KeptAppend(a: seq<Msg>, b: seq<Msg>)
    ensures KeptAll(a + b) == KeptAll(a) + KeptAll(b)
  {
    if a == [] {
      assert a + b == b;
    } else {
      assert (a + b)[1..] == a[1..] + b;
      KeptAppend(a[1..], b);
      Assoc([Kept(a[0])], KeptAll(a[1..]), KeptAll(b));
    }
  }

  lemma KeptSplit(list: seq<Msg>, k: nat)
    requires k <= |list|
    ensures KeptAll(list) == KeptAll(list[..k]) + KeptAll(list[k..])
  {
    assert list == list[..k] + list[k..];
    KeptAppend(list[..k], list[k..]);
  }

  lemma KeptIff(m: Msg)
    ensures Kept(m) == m <==> Representable(m.at) && m.meta == NO_META
  {
    assert Representable(m.at) && m.at < 0 ==> (m.at + TWO_64) % TWO_64 == m.at + TWO_64;
  }

  /** Lengths that a four-byte count can hold, and a tag of 64 bits. */
  predicate Writable(m: Msg) {
    Short(m.payload) && Short(m.contentType) && m.tag < TWO_64
  }

  function Encode(m: Msg): Bytes {
    Blob(m.payload) + Blob(m.contentType) + BigEndian(m.tag, 8) + BigEndian(ToWord(m.at), 8)
  }

  function EncodeAll(ms: seq<Msg>): Bytes {
    if ms == [] then [] else Encode(ms[0]) + EncodeAll(ms[1..])
  }

  /** A read reports the end of the file only if no byte is left. */
  datatype Got<T> = Have(value: T) | Eof | Cut
  {
    predicate IsFailure() { !Have? }
    function PropagateFailure<U>(): Got<U> requires IsFailure() { if Eof? then Eof else Cut }
    function Extract(): T requires !IsFailure() { value }
  }

  function Take(b: Bytes, n: nat): Got<(Bytes, Bytes)> {
    if n <= |b| then Have((b[..n], b[n..])) else if b == [] then Eof else Cut
  }

  function TakeBlob(b: Bytes): Got<(Bytes, Bytes)> {
    var (len, b1) :- Take(b, 4);
    Take(b1, Number(len))
  }

  function ReadMessage(b: Bytes): (r: Got<(Msg, Bytes)>)
    ensures r.Have? ==> |r.value.1| < |b|
  {
    var (payload, b1) :- TakeBlob(b);
    var (contentType, b2) :- TakeBlob(b1);
    var (tag, b3) :- Take(b2, 8);
    var (at, b4) :- Take(b3, 8);
    Have((Msg(payload, contentType, Number(tag), OfWord(Number(at)), NO_META), b4))
  }

  datatype Page = Messages(list: seq<Msg>) | Broken

  /** Messages up to the first read that reports the end of the file. */
  function ReadAll(b: Bytes): Page
    decreases |b|
  {
    match ReadMessage(b)
    case Eof => Messages([])
    case Cut => Broken
    case Have(mr) => Prepend(mr.0, ReadAll(mr.1))
  }

  function Prepend(m: Msg, p: Page): Page {
    if p.Broken? then Broken else Messages([m] + p.list)
  }

  lemma TakeWritten(a: Bytes, rest: Bytes)
    ensures Take(a + rest, |a|) == Have((a, rest))
  {
    assert (a + rest)[..|a|] == a && (a + rest)[|a|..] == rest;
  }

  lemma TakeWrittenBlob(a: Bytes, rest: Bytes)
    requires Short(a)
    ensures TakeBlob(Blob(a) + rest) == Have((a, rest))
  {
    Widths();
    NumberOfBigEndian(|a|, 4);
    Regroup(BigEndian(|a|, 4), a, rest);
    TakeWritten(BigEndian(|a|, 4), a + rest);
    TakeWritten(a, rest);
  }

  /** The part of a message after its two strings. */
  function Tail(m: Msg): Bytes {
    BigEndian(m.tag, 8) + BigEndian(ToWord(m.at), 8)
  }

  lemma EncodeParts(m: Msg, rest: Bytes)
    ensures Encode(m) + rest == Blob(m.payload) + (Blob(m.contentType) + (Tail(m) + rest))
    ensures Tail(m) + rest == BigEndian(m.tag, 8) + (BigEndian(ToWord(m.at), 8) + rest)
  {
  }

  lemma ReadWritten(m: Msg, rest: Bytes)
    requires Writable(m)
    ensures ReadMessage(Encode(m) + rest) == Have((Kept(m), rest))
  {
    EncodeParts(m, rest);
    TakeWrittenBlob(m.payload, Blob(m.contentType) + (Tail(m) + rest));
    TakeWrittenBlob(m.contentType, Tail(m) + rest);
    TakeWritten(BigEndian(m.tag, 8), BigEndian(ToWord(m.at), 8) + rest);
    TakeWritten(BigEndian(ToWord(m.at), 8), rest);
    Widths();
    NumberOfBigEndian(m.tag, 8);
    NumberOfBigEndian(ToWord(m.at), 8);
  }

  lemma ReadFirst(m: Msg, rest: Bytes)
    requires Writable(m)
    ensures ReadAll(Encode(m) + rest) == Prepend(Kept(m), ReadAll(rest))
  {
    ReadWritten(m, rest);
  }

  function Join(list: seq<Msg>, p: Page): Page {
    if p.Broken? then Broken else Messages(list + p.list)
  }

  lemma PrependJoin(m: Msg, list: seq<Msg>, p: Page)
    ensures Prepend(m, Join(list, p)) == Join([m] + list, p)
  {
    if p.Messages? { Assoc([m], list, p.list); }
  }

  lemma JoinNothing(p: Page)
    ensures Join([], p) == p
  {
    if p.Messages? { assert [] + p.list == p.list; }
  }

  lemma EncodeFirst(ms: seq<Msg>, tail: Bytes)
    requires ms != []
    ensures EncodeAll(ms) + tail == Encode(ms[0]) + (EncodeAll(ms[1..]) + tail)
  {
    Regroup(Encode(ms[0]), EncodeAll(ms[1..]), tail);
  }

  lemma {:induction false} ReadAfter(ms: seq<Msg>, tail: Bytes)
    requires forall m | m in ms :: Writable(m)
    ensures ReadAll(EncodeAll(ms) + tail) == Join(KeptAll(ms), ReadAll(tail))
  {
    if ms == [] {
      assert EncodeAll(ms) + tail == tail;
      JoinNothing(ReadAll(tail));
    } else {
      ReadAfter(ms[1..], tail);
      EncodeFirst(ms, tail);
      ReadFirst(ms[0], EncodeAll(ms[1..]) + tail);
      PrependJoin(Kept(ms[0]), KeptAll(ms[1..]), ReadAll(tail));
    }
  }

  /** A page holds the payload, the content type, the tag and the time of every message, in order. */
  lemma PageRoundTrip(ms: seq<Msg>)
    requires forall m | m in ms :: Writable(m)
    ensures ReadAll(EncodeAll(ms)) == Messages(KeptAll(ms))
  {
    ReadAfter(ms, []);
    assert EncodeAll(ms) + [] == EncodeAll(ms);
    assert KeptAll(ms) + [] == KeptAll(ms);
  }

  /** Where the fields of a message begin. */
  function FieldStarts(m: Msg): set<nat> {
    var p, c := |m.payload|, |m.contentType|;
    {0, 4, 4 + p, 8 + p, 8 + p + c, 16 + p + c}
  }

  lemma TakeCut(a: Bytes, rest: Bytes, cut: nat)
    requires cut <= |a + rest|
    ensures cut < |a| ==> Take((a + rest)[..cut], |a|) == if cut == 0 then Eof else Cut
    ensures cut >= |a| ==> Take((a + rest)[..cut], |a|) == Have((a, rest[..cut - |a|]))
  {
    var b := (a + rest)[..cut];
    if cut >= |a| { assert b[..|a|] == a && b[|a|..] == rest[..cut - |a|]; }
  }

  lemma TakeBlobCut(a: Bytes, rest: Bytes, cut: nat)
    requires Short(a) && cut <= |Blob(a) + rest|
    ensures cut < 4 + |a| ==> TakeBlob((Blob(a) + rest)[..cut]) == if cut in {0, 4} then Eof else Cut
    ensures cut >= 4 + |a| ==> TakeBlob((Blob(a) + rest)[..cut]) == Have((a, rest[..cut - 4 - |a|]))
  {
    Widths();
    NumberOfBigEndian(|a|, 4);
    Regroup(BigEndian(|a|, 4), a, rest);
    TakeCut(BigEndian(|a|, 4), a + rest, cut);
    if cut >= 4 { TakeCut(a, rest, cut - 4); }
  }

  lemma ReadCut(m: Msg, cut: nat)
    requires Writable(m) && cut < |Encode(m)|
    ensures ReadMessage(Encode(m)[..cut]) == if cut in FieldStarts(m) then Eof else Cut
  {
    var p, c := 4 + |m.payload|, 4 + |m.contentType|;
    EncodeParts(m, []);
    assert Encode(m) + [] == Encode(m) && Tail(m) + [] == Tail(m);
    assert BigEndian(ToWord(m.at), 8) + [] == BigEndian(ToWord(m.at), 8);
    TakeBlobCut(m.payload, Blob(m.contentType) + Tail(m), cut);
    if cut >= p {
      TakeBlobCut(m.contentType, Tail(m), cut - p);
      if cut >= p + c {
        TakeCut(BigEndian(m.tag, 8), BigEndian(ToWord(m.at), 8), cut - p - c);
        if cut >= p + c + 8 {
          TakeCut(BigEndian(ToWord(m.at), 8), [], cut - p - c - 8);
        }
      }
    }
  }

  /** A page cut short in its last message is reported as broken exactly when the cut falls inside
      a field; at the start of a field the message is dropped in silence. */
  lemma CutPage(ms: seq<Msg>, m: Msg, cut: nat)
    requires (forall k | k in ms :: Writable(k)) && Writable(m) && cut < |Encode(m)|
    ensures ReadAll(EncodeAll(ms) + Encode(m)[..cut]) ==
            if cut in FieldStarts(m) then Messages(KeptAll(ms)) else Broken
  {
    ReadCut(m, cut);
    ReadAfter(ms, Encode(m)[..cut]);
    assert KeptAll(ms) + [] == KeptAll(ms);
  }

  // ---------------------------------------------------------------- Writing and reading

  method WriteMessage(w: Encoder, m: Msg)
    modifies w
    ensures w.buf == old(w.buf) + Encode(m)
  {
    w.WriteBlob(m.payload);
    w.WriteBlob(m.contentType);
    w.WriteUint(m.tag, 8);
    w.WriteUint(ToWord(m.at), 8);
  }

  method WriteAll(ms: seq<Msg>) returns (b: Bytes)
    ensures b == EncodeAll(ms)
  {
    var w := new Encoder();
    var i := 0;
    while i < |ms|
      invariant 0 <= i <= |ms|
      invariant w.buf + EncodeAll(ms[i..]) == EncodeAll(ms)
    {
      assert ms[i..][1..] == ms[i + 1..];
      Regroup(w.buf, Encode(ms[i]), EncodeAll(ms[i + 1..]));
      WriteMessage(w, ms[i]);
      i := i + 1;
    }
    b := w.buf;
  }

  class Reader {
    var data: Bytes

    constructor (data: Bytes)
      ensures this.data == data
    {
      this.data := data;
    }

    method ReadFull(n: nat) returns (r: Got<Bytes>)
      modifies this
      ensures Take(old(data), n) == if r.Have? then Have((r.value, data)) else r.PropagateFailure()
    {
      if n <= |data| {
        r := Have(data[..n]);
        data := data[n..];
      } else {
        r := if data == [] then Eof else Cut;
        data := [];
      }
    }

    method ReadString() returns (r: Got<Bytes>)
      modifies this
      ensures TakeBlob(old(data)) == if r.Have? then Have((r.value, data)) else r.PropagateFailure()
    {
      var len :- ReadFull(4);
      r := ReadFull(Number(len));
    }

    method Next() returns (r: Got<Msg>)
      modifies this
      ensures ReadMessage(old(data)) == if r.Have? then Have((r.value, data)) else r.PropagateFailure()
    {
      var payload :- ReadString();
      var contentType :- ReadString();
      var tag :- ReadFull(8);
      var at :- ReadFull(8);
      r := Have(Msg(payload, contentType, Number(tag), OfWord(Number(at)), NO_META));
    }
  }

  method LoadAll(b: Bytes) returns (p: Page)
    ensures p == ReadAll(b)
  {
    var r := new Reader(b);
    var list: seq<Msg> := [];
    JoinNothing(ReadAll(b));
    while true
      invariant ReadAll(b) == Join(list, ReadAll(r.data))
      decreases |r.data|
    {
      ghost var left := r.data;
      var m := r.Next();
      match m
      case Eof =>
        assert list + [] == list;
        return Messages(list);
      case Cut =>
        return Broken;
      case Have(first) =>
        JoinPrepend(list, first, ReadAll(r.data));
        list := list + [first];
    }
  }

  lemma JoinPrepend(list: seq<Msg>, m: Msg, p: Page)
    ensures Join(list, Prepend(m, p)) == Join(list + [m], p)
  {
    if p.Messages? { Assoc(list, [m], p.list); }
  }
}
