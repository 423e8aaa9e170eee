/** Exchange types and queue arguments: which queues a binding list sends a message to. */
module Routing {
  import opened Topic

  /** A value in a header or argument table. */
  datatype Value = Text(s: string) | Whole(n: int) | Fraction(r: real) | Flag(b: bool) | Other

  type Table = map<string, Value>

  datatype Kind = Direct | Fanout | ByTopic | Headers

  datatype Binding = Binding(queue: string, routingKey: string, args: Table)

  /** How a headers exchange compares a message's headers with a binding's arguments. */
  type HeaderMatch = (Table, Table) -> bool

  ghost predicate Selects(kind: Kind, key: string, headers: Table, hm: HeaderMatch, b: Binding) {
    match kind
    case Direct => b.routingKey == key
    case Fanout => true
    case ByTopic => Matches(Split(key), Split(b.routingKey))
    case Headers => hm(headers, b.args)
  }

  /** The queues of the selected bindings, in binding order. */
  ghost function Selected(kind: Kind, key: string, headers: Table, hm: HeaderMatch, bindings: seq<Binding>)
    : seq<string>
  {
    if bindings == [] then []
    else if Selects(kind, key, headers, hm, bindings[0])
    then [bindings[0].queue] + Selected(kind, key, headers, hm, bindings[1..])
    else Selected(kind, key, headers, hm, bindings[1..])
  }

  ghost function Route(kind: Kind, key: string, headers: Table, hm: HeaderMatch, bindings: seq<Binding>): seq<string> {
    Distinct(Selected(kind, key, headers, hm, bindings), {})
  }

  lemma {:induction false} SelectedHas(kind: Kind, key: string, headers: Table, hm: HeaderMatch,
                                       bindings: seq<Binding>, q: string)
    ensures q in Selected(kind, key, headers, hm, bindings) <==>
              exists b :: b in bindings && b.queue == q && Selects(kind, key, headers, hm, b)
  {
    if bindings != [] {
      SelectedHas(kind, key, headers, hm, bindings[1..], q);
      assert bindings == [bindings[0]] + bindings[1..];
    }
  }

  /** The route holds exactly the queues of selecting bindings, each once, in first-match order. */
  lemma RouteMeaning(kind: Kind, key: string, headers: Table, hm: HeaderMatch, bindings: seq<Binding>)
    ensures var r := Route(kind, key, headers, hm, bindings);
            && (forall q :: q in r <==> exists b :: b in bindings && b.queue == q && Selects(kind, key, headers, hm, b))
            && (forall i, j | 0 <= i < j < |r| :: r[i] != r[j])
            && (forall i, j, x, y |
                  && 0 <= i < j < |r|
                  && FirstAt(Selected(kind, key, headers, hm, bindings), r[i], x)
                  && FirstAt(Selected(kind, key, headers, hm, bindings), r[j], y) :: x < y)
  {
    DistinctMeaning(Selected(kind, key, headers, hm, bindings), {});
    forall q { SelectedHas(kind, key, headers, hm, bindings, q); }
  }

  lemma {:induction false} DistinctAppend(names: seq<string>, more: seq<string>, seen: set<string>)
    ensures Distinct(names + more, seen) == Distinct(names, seen) + Distinct(more, seen + set n | n in names)
    decreases |names|
  {
    if names == [] {
      assert names + more == more;
      assert seen + (set n | n in names) == seen;
    } else {
      assert (names + more)[1..] == names[1..] + more;
      var after := if names[0] in seen then seen else seen + {names[0]};
      DistinctAppend(names[1..], more, after);
      assert after + (set n | n in names[1..]) == seen + (set n | n in names) by {
        assert names == [names[0]] + names[1..];
      }
    }
  }

  lemma {:induction false} SelectedAppend(kind: Kind, key: string, headers: Table, hm: HeaderMatch, a: seq<Binding>,
                                          b: Binding)
    ensures Selected(kind, key, headers, hm, a + [b]) ==
            Selected(kind, key, headers, hm, a) + if Selects(kind, key, headers, hm, b) then [b.queue] else []
  {
    if a == [] {
      assert a + [b] == [b];
    } else {
      assert (a + [b])[1..] == a[1..] + [b];
      SelectedAppend(kind, key, headers, hm, a[1..], b);
    }
  }

  lemma RouteAppend(kind: Kind, key: string, headers: Table, hm: HeaderMatch, a: seq<Binding>, b: Binding)
    ensures Route(kind, key, headers, hm, a + [b]) ==
            if Selects(kind, key, headers, hm, b) && b.queue !in Selected(kind, key, headers, hm, a)
            then Route(kind, key, headers, hm, a) + [b.queue] else Route(kind, key, headers, hm, a)
  {
    SelectedAppend(kind, key, headers, hm, a, b);
    var names := Selected(kind, key, headers, hm, a);
    if Selects(kind, key, headers, hm, b) {
      DistinctAppend(names, [b.queue], {});
      assert {} + (set n | n in names) == (set n | n in names);
    } else {
      assert names + [] == names;
    }
  }

  method Hit(kind: Kind, key: string, headers: Table, hm: HeaderMatch, b: Binding) returns (hit: bool)
    ensures hit <==> Selects(kind, key, headers, hm, b)
  {
    match kind {
      case Direct => hit := b.routingKey == key;
      case Fanout => hit := true;
      case ByTopic => hit := MatchTopicPattern(Split(key), b.routingKey);
      case Headers => hit := hm(headers, b.args);
    }
  }

  method RouteQueues(kind: Kind, key: string, headers: Table, hm: HeaderMatch, bindings: seq<Binding>)
    returns (queues: seq<string>)
    ensures queues == Route(kind, key, headers, hm, bindings)
  {
    queues := [];
    var seen: set<string> := {};
    var i := 0;
    while i < |bindings|
      invariant 0 <= i <= |bindings|
      invariant queues == Route(kind, key, headers, hm, bindings[..i])
      invariant forall n :: n in seen <==> n in Selected(kind, key, headers, hm, bindings[..i])
    {
      var b := bindings[i];
      var hit := Hit(kind, key, headers, hm, b);
      assert bindings[..i + 1] == bindings[..i] + [b];
      SelectedAppend(kind, key, headers, hm, bindings[..i], b);
      RouteAppend(kind, key, headers, hm, bindings[..i], b);
      if hit && b.queue !in seen {
        queues := queues + [b.queue];
        seen := seen + {b.queue};
      }
      i := i + 1;
    }
    assert bindings[..i] == bindings;
  }

  // ---------------------------------------------------------------- Queue arguments

  datatype Option<T> = None | Some(value: T)

  /** The dead-letter exchange, and the routing key or "" to keep the message's own. */
  function DeadLetterConfig(args: Table): (r: Option<(string, string)>)
    ensures r.Some? <==> "x-dead-letter-exchange" in args && args["x-dead-letter-exchange"].Text?
                         && args["x-dead-letter-exchange"].s != ""
    ensures r.Some? ==> args["x-dead-letter-exchange"] == Text(r.value.0)
    ensures r.Some? ==>
              if "x-dead-letter-routing-key" in args && args["x-dead-letter-routing-key"].Text?
              then args["x-dead-letter-routing-key"] == Text(r.value.1) else r.value.1 == ""
  {
    if "x-dead-letter-exchange" !in args then None
    else match args["x-dead-letter-exchange"]
      case Text(name) =>
        if name == "" then None
        else
          var key := if "x-dead-letter-routing-key" in args && args["x-dead-letter-routing-key"].Text?
                     then args["x-dead-letter-routing-key"].s else "";
          Some((name, key))
      case _ => None
  }

  /** Conversion to a 64-bit signed integer: unsigned values wrap, fractions lose their fraction. */
  function ToInt(v: Value): int {
    match v
    case Whole(n) => if n >= 0x8000_0000_0000_0000 then n - 0x1_0000_0000_0000_0000 else n
    case Fraction(r) => if r >= 0.0 then r.Floor else -((-r).Floor)
    case _ => 0
  }

  function MaxLength(args: Table): int {
    if "x-max-length" in args then ToInt(args["x-max-length"]) else 0
  }

  function MaxPriority(args: Table): (p: nat)
    ensures p < 256
  {
    if "x-max-priority" !in args then 0
    else match args["x-max-priority"]
      case Whole(n) => if 0 < n <= 255 then n else 0
      case Fraction(r) => if 0.0 < r <= 255.0 then r.Floor else 0
      case _ => 0
  }
}
