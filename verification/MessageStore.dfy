/** The in-memory store: one list of messages per queue name. */
module MessageStore {
  import opened Messages
  import opened PriorityQueue

  type Queues = map<string, seq<Message>>

  function Queue(qs: Queues, name: string): seq<Message> {
    if name in qs then qs[name] else []
  }

  function Appended(qs: Queues, name: string, m: Message): Queues {
    qs[name := Queue(qs, name) + [m]]
  }

  function Inserted(qs: Queues, name: string, m: Message): Queues {
    qs[name := Insert(Queue(qs, name), m)]
  }

  function Popped(qs: Queues, name: string): Queues {
    if Queue(qs, name) == [] then qs else qs[name := Queue(qs, name)[1..]]
  }

  class Store {
    var queues: Queues

    constructor ()
      ensures queues == map[]
    {
      queues := map[];
    }

    method Enqueue(name: string, m: Message)
      modifies this
      ensures queues == Appended(old(queues), name, m)
    {
      queues := queues[name := (if name in queues then queues[name] else []) + [m]];
    }

    method EnqueuePriority(name: string, m: Message)
      modifies this
      ensures queues == Inserted(old(queues), name, m)
    {
      var q := InsertByPriority(if name in queues then queues[name] else [], m);
      queues := queues[name := q];
    }

    method Dequeue(name: string) returns (found: bool, m: Message)
      modifies this
      ensures found <==> Queue(old(queues), name) != []
      ensures found ==> m == Queue(old(queues), name)[0]
      ensures queues == Popped(old(queues), name)
    {
      var q := if name in queues then queues[name] else [];
      if |q| == 0 { return false, Message(0, 0, ""); }
      queues := queues[name := q[1..]];
      return true, q[0];
    }

    method Len(name: string) returns (n: nat)
      ensures n == |Queue(queues, name)|
    {
      n := if name in queues then |queues[name]| else 0;
    }

    method Purge(name: string)
      modifies this
      ensures queues == old(queues) - {name}
    {
      queues := queues - {name};
    }

    /** The expired messages are handed back in queue order; the rest stay in order. */
    method RemoveExpired(name: string, isExpired: Message -> bool) returns (expired: seq<Message>)
      modifies this
      ensures expired == Filter(Queue(old(queues), name), isExpired)
      ensures Queue(queues, name) == Filter(Queue(old(queues), name), Unless(isExpired))
      ensures forall other | other != name :: Queue(queues, other) == Queue(old(queues), other)
    {
      var q := if name in queues then queues[name] else [];
      if |q| == 0 { return []; }
      var alive;
      alive, expired := Partition(q, isExpired);
      queues := queues[name := alive];
    }
  }
}
